# RoomReserveBot reservation core in Dafny

RoomReserveBot is a Slack bot that books meeting rooms. Each reservation is one
key-value pair in an ordered Badger store:

- the key is `date_room_unixSeconds`;
- the value is `start_end_user`, with times as `HH:MM` text.

This project models the part of the bot that is logic, not Slack plumbing:

- the record codec (`FormatKV` / `ParseReserveKV`);
- the conflict scan `IsConflict`, over the run of keys starting with `date_room`;
- the per-room report `FormatViewByRoom`;
- the confirm-button value codec and the block-id dispatch of the interaction handler;
- the mention-command handling: the command word, `list`, `raw` and `reset`, and the room menu.

Modules, one per source area:

- `GoRuntime` (go_runtime.dfy): the Go behaviour the code relies on.
  - `strings.Split` with a one-character separator, `strings.Join` and `strings.HasPrefix`.
  - Go's bytewise `<` on strings (`LexLess`), and `%d` formatting.
  - Go's index-out-of-range panic, which becomes the `IndexPanic` case of `Result`.
- `KvStore` (kv_store.dfy): the store as a class holding its pairs in ascending key order.
  - `Seek` finds the first key at or above a prefix; `DropAll` empties the store.
  - `ScannedValues` is what a prefix iteration visits.
- `Reservations` (reserve.dfy): api/reserve.go except the report — the codec, the overlap test and the conflict scan.
  - `IsConflict` is a loop over the store that overwrites the current owner.
  - It is proved equal to the specification function `ConflictOwner`.
- `RoomView` (api/reserve.go's `FormatViewByRoom`, in room_view.dfy): works on an `array`, because the Go function reorders the caller's slice in place.
  - It is proved to preserve the multiset of reservations.
  - It is proved to return `ViewByRoom` of the reordered slice.
- `Actions` (actions.dfy): the interaction handler of api/actions.go.
- `Events` (events.dfy): the mention handler of api/events.go.

Parameters stand in for what the code reads from its environment:

- `time.Now` becomes two arguments: the date text `date` and the Unix time `unixSeconds`.
- The room directory `rooms` is a `seq<Room>` argument, because its definition is not part of this model.
- The outcome of `ReserveRoom` (its holder) is an argument of `ReservationNotices`.

Three behaviours of the code differ from what a reader of the bot would expect, and the model follows the code:

- One would expect the first overlapping reservation to be reported. `IsConflict` reports the owner of the LAST overlapping record in key order, because each overlap overwrites `reserved_user`.
- One would expect a stored record with too few `_` pieces to be reported as malformed. Reading it indexes out of range and panics instead, so `ParseReserveKV`, `IsConflict` and `list` return `IndexPanic`.
- One would expect the report to be sorted by start time. The comparator given to `sort.Slice` compares one reservation's start with the other's END. `RoomView.SortLessIsNotAnOrder` shows it is not a strict order, so only the multiset of the slice is promised.

## Model

| member | source | states |
|---|---|---|
| GoRuntime.IndexOf | api/reserve.go:25-26 | the first position of the separator, or -1 exactly when it is absent |
| GoRuntime.HasPrefix | api/actions.go:59 | strings.HasPrefix, also the key test of ValidForPrefix at api/reserve.go:62 |
| GoRuntime.Split | api/reserve.go:25-26 | strings.Split: at least one piece, and no piece contains the separator |
| GoRuntime.SplitAtFirst | api/reserve.go:25-26 | a separator-free piece followed by the separator splits off as the first piece |
| GoRuntime.SplitNone | api/reserve.go:25-26 | text without the separator is one piece, itself |
| GoRuntime.SplitsAtIndex | api/reserve.go:25-26 | text holding the separator is a separator-free part, the separator and a shorter rest |
| GoRuntime.SplitHead | api/reserve.go:25-28 | the first piece is a prefix of the text, equal to it exactly when the text has no separator |
| GoRuntime.SplitHeadOfAppend | api/reserve.go:25-28 | text added after a separator does not change the first piece |
| GoRuntime.SplitLength | api/reserve.go:25-31 | n separators give exactly n + 1 pieces |
| GoRuntime.SplitJoin | api/reserve.go:25-31 | splitting joined separator-free pieces gives the pieces back |
| GoRuntime.JoinSplit | api/reserve.go:50 | joining the pieces of a split with the separator gives the text back |
| GoRuntime.Join | api/reserve.go:50 | strings.Join: the pieces with the separator between consecutive ones; `SplitJoin`, `JoinSplit`, `JoinSnoc` and `JoinCons` state its properties |
| GoRuntime.JoinSnoc | api/reserve.go:50 | joining one more piece appends the separator and that piece |
| GoRuntime.JoinCons | api/reserve.go:50 | joining a piece in front of at least one more puts the separator between it and the join of the rest |
| GoRuntime.LexIrreflexive | api/reserve.go:71 | no string is below itself in Go's string order |
| GoRuntime.LexTransitive | api/reserve.go:71 | Go's string order is transitive |
| GoRuntime.LexTotal | api/reserve.go:71 | any two different strings are ordered one way or the other |
| GoRuntime.LexLess | api/reserve.go:71 | Go's `<` on strings: bytewise lexicographic order, a proper prefix below the longer string; `LexIrreflexive`, `LexTransitive` and `LexTotal` make it a strict total order |
| GoRuntime.PrefixNotBelow | api/reserve.go:62 | a string never sorts below its own prefix |
| GoRuntime.PrefixBetween | api/reserve.go:62 | a string sorted between two strings with a prefix has that prefix, so keys with a prefix are contiguous |
| GoRuntime.DecimalString | api/reserve.go:36 | `%d` text is non-empty and made only of a minus sign and digits |
| KvStore.ScannedValues | api/reserve.go:62 | a prefix iteration visits at most as many values as there are pairs |
| KvStore.KeysAscending | api/reserve.go:62 | the store's iteration order: keys strictly ascending in Go's string order, so each key occurs once |
| KvStore.Store.Valid | api/reserve.go:62 | the store invariant: its pairs are in ascending key order |
| KvStore.ScannedAppend | api/reserve.go:62 | the values visited over two runs of pairs are those of the first run followed by those of the second |
| KvStore.ScannedNone | api/reserve.go:62 | when no key has the prefix, nothing is visited |
| KvStore.RunEnds | api/reserve.go:62 | in ascending keys, the first key at or above the prefix without it ends the run: no later key has it |
| KvStore.RunContinues | api/reserve.go:62 | after a key with the prefix the next key is still at or above the prefix |
| KvStore.Store.Seek | api/reserve.go:62 | Iterator.Seek: every key before the returned position is below the prefix, the key at it is not, and nothing before it has the prefix |
| KvStore.Store.DropAll | api/events.go:141 | DB.DropAll leaves the store empty and still ordered |
| Reservations.FormatKV | api/reserve.go:35-39 | the key always starts with the prefix `IsConflict` scans for the same date and room |
| Reservations.ScanPrefix | api/reserve.go:61 | the scan prefix `date_room`, with no separator after the room; `ScanPrefixMatchesRoomExtensions` states which keys carry it |
| Reservations.ParseReserveKV | api/reserve.go:24-33 | it panics exactly when the key has no `_` or the value has fewer than two; a decoded record has no `_` in any field |
| Reservations.SplitThree | api/reserve.go:26-31 | three separator-free fields joined by `_` split back into exactly those three |
| Reservations.FormatParseRoundTrip | api/reserve.go:24-39 | decoding an encoded record gives back all four fields when the date and the fields contain no `_` |
| Reservations.FormattedRoomTruncated | api/reserve.go:25-28 | an encoded record always decodes, with the room cut at its first `_`; the room comes back unchanged exactly when it has no `_` |
| Reservations.KeyRoomPiece | api/reserve.go:25-28 | piece 1 of a key is the room up to its first `_` |
| Reservations.ValueHasThreePieces | api/reserve.go:26-31 | a value written by FormatKV has at least three pieces |
| Reservations.FormattedUserTruncated | api/reserve.go:26-31 | with `_`-free times the user comes back cut at its first `_`, unchanged exactly when it has no `_` |
| Reservations.ValueUserPiece | api/reserve.go:26-31 | with `_`-free times, value piece 2 is the user up to its first `_` |
| Reservations.Overlaps | api/reserve.go:71 | the strict overlap test of a stored interval against the request, in Go's string order; `TouchingIntervalsDoNotOverlap` and `OverlapMeansSharedInstant` state what it means |
| Reservations.SameSecondKeysCollide | api/reserve.go:36 | two keys written in the same second for the same date are equal exactly when the rooms are equal |
| Reservations.TouchingIntervalsDoNotOverlap | api/reserve.go:71 | intervals that only share an endpoint do not conflict, in either order |
| Reservations.OverlapMeansSharedInstant | api/reserve.go:71 | for non-empty intervals the strict test holds exactly when some instant lies in both half-open intervals |
| Reservations.OverlapsRecord | api/reserve.go:66-71 | a stored value has at least two pieces and its interval passes the overlap test |
| Reservations.Unreadable | api/reserve.go:66-72 | the callback indexes out of range: fewer than two pieces, or an overlapping interval with no owner piece |
| Reservations.Owner | api/reserve.go:72 | the owner piece `t[2]` of a stored value, or "" when it has none |
| Reservations.ScanStep | api/reserve.go:66-73 | one record of the scan: a panic on an unreadable record, the owner piece on an overlap, the owner kept otherwise; `VisitValue` is proved to compute it |
| Reservations.ConflictOwner | api/reserve.go:56-73 | the `reserved_user` fold over the visited values, starting empty; `ConflictOwnerIsLastOverlap` and `ConflictOwnerPanicsIff` state what it yields |
| Reservations.VisitValue | api/reserve.go:65-75 | the value callback panics exactly on an unreadable record; otherwise it returns the record's owner piece when its interval overlaps the request, and the owner so far when not |
| Reservations.OwnerStep | api/reserve.go:62-75 | one more visited value applies one scan step to the owner so far |
| Reservations.ConflictOwnerPanicsIff | api/reserve.go:66-72 | the scan panics exactly when some visited value is unreadable |
| Reservations.ConflictOwnerIsLastOverlap | api/reserve.go:56-73 | over readable values the owner is empty when nothing overlaps, otherwise the owner of the last overlapping record |
| Reservations.PanicPersists | api/reserve.go:62-79 | once a record has panicked, later records change nothing |
| Reservations.PanicAhead | api/reserve.go:62-79 | a panic among the first pairs visited is a panic of the whole scan |
| Reservations.ScanAdvance | api/reserve.go:62 | stepping over a key with the prefix adds its value to those visited |
| Reservations.ScanDone | api/reserve.go:62 | when the loop stops at the end or at a key past the prefix run, it has visited every value with the prefix |
| Reservations.ScanSplits | api/reserve.go:62 | the values visited over the whole store are those before a position followed by those after it |
| Reservations.EmptyHolderLooksFree | api/reserve.go:72-87 | an overlapping record whose user is empty gives the same empty owner as no record at all |
| Reservations.ReplyOf | api/reserve.go:82-87 | the error is non-nil exactly when the owner is non-empty, and the owner is returned as found |
| Reservations.ScanForConflict | api/reserve.go:56-88 | the seek-and-iterate loop yields the reply for `ConflictOwner` of exactly the values whose keys carry the prefix |
| Reservations.IsConflict | api/reserve.go:55-88 | IsConflict yields the reply for `ConflictOwner` of the values under `date_room`, read-only |
| Reservations.ScanPrefixMatchesRoomExtensions | api/reserve.go:61-62 | a stored key carries the prefix `date_room` exactly when its room name starts with `room` |
| Reservations.ScannedOne | api/reserve.go:62 | a single pair is visited exactly when its key has the prefix |
| Reservations.ScanPrefixReportsExtendedRoom | api/reserve.go:61-72 | an overlapping record of any room whose name extends the requested one is reported as the owner under `date_room` |
| Reservations.RoomKeyPrefixSkipsOtherRoom | api/reserve.go:61-72 | under `date_room_` a record of another `_`-free room is never reported |
| Reservations.RoomExtensionCounterexample | api/reserve.go:61-72 | a record of room `AB` is reported as a conflict for room `A` under `date_room`, and not under `date_room_` |
| Reservations.RoomKeyPrefixSelectsRoom | api/reserve.go:61-62 | with `_`-free rooms the prefix `date_room_` selects exactly the records of that room |
| Reservations.IsConflictInRoom | api/reserve.go:55-88 | the corrected scan yields the reply for `ConflictOwner` of the values under `date_room_` |
| RoomView.SortLessIsNotAnOrder | api/reserve.go:43 | the comparator makes a reservation less than itself, and two overlapping reservations each less than the other |
| RoomView.SortLess | api/reserve.go:43 | the comparator handed to sort.Slice, which compares one start with the other's end; `SortLessIsNotAnOrder` shows it is not an order |
| RoomView.SortSlice | api/reserve.go:43 | sort.Slice only reorders: the multiset of the slice is preserved |
| RoomView.ReserveLine | api/reserve.go:45 | the report line of one reservation: start, end and user |
| RoomView.LinesFor | api/reserve.go:44-45 | the lines of one room's reservations in slice order; `LinesForMembers`, `LinesForLength` and `LinesForPermutation` state what it holds |
| RoomView.GroupOf | api/reserve.go:49 | reading a room's group from the map, nil (no lines) when the room has none |
| RoomView.RoomBlock | api/reserve.go:49-50 | the block of one room: name, description, its lines joined by newlines, and a final newline |
| RoomView.ViewByRoom | api/reserve.go:47-51 | the report: the blocks of the directory rooms concatenated in directory order; `ViewBlockAt` and `UnlistedRoomIgnored` state its layout |
| RoomView.Concat | api/reserve.go:47-51 | the `res +=` accumulation: the blocks concatenated in order; `ConcatSnoc` and `ConcatAppend` state how it splits |
| RoomView.FormatViewByRoom | api/reserve.go:41-53 | reorders the slice in place with its multiset preserved, and returns `ViewByRoom` of the reordered slice |
| RoomView.GroupLines | api/reserve.go:42-46 | after the grouping loop each room maps to the lines of its reservations, in slice order |
| RoomView.WriteBlocks | api/reserve.go:47-51 | the rendering loop concatenates one block per directory room, in directory order |
| RoomView.LinesForSnoc | api/reserve.go:44-45 | one more reservation adds its line to its own room and to no other |
| RoomView.LinesForAppend | api/reserve.go:44-45 | the lines of a room over two slices are those of the first followed by those of the second |
| RoomView.LinesForMembers | api/reserve.go:44-45 | a line is under a room exactly when some reservation of that room has that line |
| RoomView.LinesForLength | api/reserve.go:44-45 | a room has exactly as many lines as the slice has reservations for it |
| RoomView.LinesForPermutation | api/reserve.go:43-45 | reordering the slice leaves the multiset of each room's lines unchanged |
| RoomView.ViewSplits | api/reserve.go:47-51 | the report over two directory parts is the report of the first part followed by that of the second |
| RoomView.ViewOne | api/reserve.go:49-50 | the report of a one-room directory is that room's block |
| RoomView.ViewBlockAt | api/reserve.go:47-51 | the block of directory room k sits between the reports of the rooms before and after it |
| RoomView.UnlistedRoomIgnored | api/reserve.go:48-51 | a reservation for a room outside the directory leaves no trace in the report |
| RoomView.EmptyStoreListsEveryRoom | api/reserve.go:47-51 | with no reservations, every directory room is listed at its directory position with an empty block |
| RoomView.EmptyReportListsEveryRoom | api/reserve.go:47-51 | an example of `EmptyStoreListsEveryRoom`: the report of an empty store over a two-room directory, in full |
| Actions.ConfirmValue | api/actions.go:42 | the "yes" button value always starts with `r` |
| Actions.ConfirmPrompt | api/actions.go:37-38 | the prompt text naming the selected room, start and end |
| Actions.ConfirmPieces | api/actions.go:42-60 | the "yes" value splits into `r`, room, start and end when none of them contains `_` |
| Actions.DecodeConfirm | api/actions.go:59-66 | no reservation exactly when the value does not start with `r`; a panic exactly when it starts with `r` but has fewer than three `_`; the user is always the presser |
| Actions.ConfirmRoundTrip | api/actions.go:42-66 | decoding the button value gives back room, start and end when none contains `_`, with the presser as user |
| Actions.DenyDeclines | api/actions.go:46-59 | the "deny" button never starts a reservation |
| Actions.HandleActionPayload | api/actions.go:23-90 | 400 exactly for a block_actions payload without actions; otherwise the first action dispatches by block id: select-room gives the prompt for the selection with its confirm value and "deny"; confirm-room panics exactly when the value's decoding panics, and otherwise closes the prompt, starting exactly the decoded reservation when there is one; any other block id or interaction type gets no response |
| Actions.SelectThenConfirm | api/actions.go:32-66 | pressing "yes" on the prompt for an `_`-free selection starts exactly that reservation for the presser, and "no" starts none |
| Actions.ReservationNotices | api/actions.go:68-83 | the start notice comes first; then "already reserved" exactly when the holder is non-empty, otherwise the completion notice |
| Events.CommandWord | api/events.go:38-44 | the command has no space, and text without a space means "list" |
| Events.CommandIsSecondWord | api/events.go:38-44 | the second space-separated word is the command, whatever follows it |
| Events.DoubleSpaceGivesEmptyCommand | api/events.go:38-44 | two spaces after the mention give the empty command |
| Events.RoomOptions | api/events.go:55-60 | one menu option per directory room, in directory order, whose value and label are the room name |
| Events.OptionOf | api/events.go:57-59 | the menu option of one room: the room name as value and label, the description as its description |
| Events.DecodeAll | api/events.go:92-99 | decoding succeeds exactly when every pair parses, with one reservation per pair, in store order |
| Events.WrittenPairsParse | api/events.go:96 | each pair written by FormatKV for an `_`-free reservation parses back to it |
| Events.DecodeAllParsed | api/events.go:92-99 | pairs that parse to the given reservations decode to exactly that sequence |
| Events.ListedRoundTrip | api/events.go:86-105 | pairs written by FormatKV for `_`-free reservations list back as exactly those reservations |
| Events.ListReservations | api/events.go:86-105 | the list loop returns `DecodeAll` of the stored pairs |
| Events.ListHeader | api/events.go:109-111 | the header line of the list reply |
| Events.ListMessage | api/events.go:107-112 | the header then the empty-store note when nothing is stored; otherwise the header then the report of some reordering of the decoded reservations; a panic exactly when decoding panics |
| Events.RawDump | api/events.go:116-138 | the raw loop returns `RawText` of the stored pairs |
| Events.RawLine | api/events.go:127 | the dump line of one pair: key, `_` and value |
| Events.RawText | api/events.go:127 | the dump: each pair's line followed by a newline, in key order; `RawTextIsJoin` and `RawDumpLines` state its shape |
| Events.RawTextIsJoin | api/events.go:127 | the dump is the pairs' lines joined by newlines and ended with a newline |
| Events.JoinTerminated | api/events.go:127 | one more line before the final empty piece adds that line and a newline to the dump |
| Events.RawLineHasNoNewline | api/events.go:127 | a pair without newlines gives a line without newlines |
| Events.RawPiecesHaveNoNewline | api/events.go:127 | without newlines in keys and values, no piece of the dump holds a newline |
| Events.RawDumpLines | api/events.go:127 | without newlines in keys and values, splitting the dump on newlines gives one line per pair and a final empty piece |
| Events.HandleAppMention | api/events.go:37-150 | only "reset" changes the store, and empties it; ping, reserve, raw, reset and list answer as described; every other word gets the unknown-command reply |

## Left out

- Slack and HTTP transport is not modelled: posting and deleting messages, building blocks, status codes and `handleError`. The replies are datatypes.
- The goroutine that runs the reservation is not modelled. `ReservationNotices` gives the sequence of messages it posts, with the holder as an argument.
- `ReserveRoom` is not part of this model. Its body is not among the modelled files, so the check-then-write step is not modelled.
- The `URLVerification` branch of `handleEventAPIEvent` is not modelled. It only echoes a challenge.
- Badger internals are not modelled: transactions, the prefetch options and iterator errors. `IsConflict` ignores the error `View` returns; `list` and `raw` only pass it to `handleError`, whose status code is left out as transport. The store is an in-memory ordered sequence of pairs.
- The texts of the three reservation notices (api/actions.go:68, 74 and 81) are not modelled. Each `Notice` carries the fields its text shows.
- `log.Println` and `fmt.Println` calls are left out, as they have no effect on results.
- Clock readings are not modelled. `time.Now` is replaced by the `date` and `unixSeconds` arguments.
- The `room-name`, `start-time` and `end-time` lookups in the interaction state are not modelled. The selected values are given directly as a `Selection`.
- RoomView.SortSlice: models the insertion sort that Go, from version 1.19, runs on slices of at most twelve elements. Longer slices, and earlier Go versions, can give a different order. Only the multiset is stated, and that holds for every sort.
- Events.ListMessage: states the report for SOME reordering of the decoded reservations, not which one. The order depends on the sort above.
- Events.HandleAppMention: for "list" it states only the panic case and the header. The body is stated by `Events.ListMessage`.
- Byte strings are modelled as character sequences. Go's `<` compares UTF-8 bytes, which orders code points the same way.

## Findings

| source | as written | input that shows it | evidently intended | confidence | as-written member | corrected member |
|---|---|---|---|---|---|---|
| api/reserve.go:61-62 | the scan prefix is `date_room`, with no separator after the room | a stored reservation of room `AB`, 10:00-11:00 by `bob`; a request for room `A`, 10:30-11:30, on the same date; the request is refused as held by `bob` | scan only the keys `date_room_`, the records of the requested room | not executed | Reservations.RoomExtensionCounterexample | Reservations.IsConflictInRoom |
