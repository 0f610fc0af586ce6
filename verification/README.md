# Sympla events bot: the text builders

This project models the deterministic core of a Telegram bot that relays event
listings from the Sympla ticketing API. On the commands "disponíveis" and
"encerrados" the bot fetches upcoming or past events of two fixed organizers
and replies with a formatted list. The HTTP call, the JSON decoding and the
bot wiring are left out. What is modelled is the text the bot builds:

- `intArrayToString`: the organizer-id list written as array text
  (`IntArray`, with `Decimal` for Go's `fmt.Sprint` of an `int`).
- The request body `fetchSymplaEvents` assembles: the service path selected by
  the listing mode, spliced with the organizer text into a fixed JSON template
  (`SymplaRequest`).
- `formatEventsMessage`: the reply text for a list of events (`Formatter`,
  over the records in `Events`).

Each operation the source performs step by step is a method. `IntArrayToString`
fills a string array by index, `SelectService` reassigns the service path, and
`FormatEventsMessage` appends to the message inside a loop. Each method is
proved equal to a function, and the properties are proved about those
functions. Each builder has a reader that undoes it:

- `ParseInt` undoes `DecimalString`.
- `Split` undoes `Join`.
- `ReadBody` recovers the two slot values of the body template.
- `ParseMessage` recovers name, city, Portuguese date and URL of every event in a reply.

Round-trip lemmas connect each builder to its reader.

Where the source disagrees with itself or with its documentation:

- `intArrayToString` closes the array with `"[]"` instead of `"]"`
  (main.go:215). The documentation promises a well-formed JSON array
  (section 5 of RFC 8259). The model follows the code: the body carries
  `"[3125215,5478152[]"`. The defect is proved (see Findings).
- `formatEventsMessage` reads `event.Location.City` (main.go:225), but `Event`
  declares `Location` as a `string` (main.go:69). Go would not compile that.
  The model follows the evident intent: an event's location is the `Location`
  record of main.go:31-43.
- `Event.Images` is declared as a `string` (main.go:68) although an `Images`
  record exists (main.go:46-50). The model keeps the declared `string`. No
  modelled code reads it.

## Model

| member | source | states |
|---|---|---|
| `Decimal.NatString` | main.go:213 | the decimal form of a natural number is a non-empty string of digits that starts with '0' only for zero |
| `Decimal.DecimalRoundTrip` | main.go:213 | the decimal form `fmt.Sprint` writes for any integer reads back, as a JSON integer, as that integer |
| `Decimal.ParseNatCanonical` | main.go:213 | every digit string the JSON integer reader accepts is exactly the decimal form of the value it reads |
| `Text.SplitJoin` | main.go:215 | joining parts that hold no separator and splitting the result at the separator gives the parts back |
| `Text.JoinSplit` | main.go:215 | splitting any text at a separator and joining the pieces gives the text back |
| `Text.JoinSeparatorCount` | main.go:215 | a join of n separator-free parts holds exactly max(n-1, 0) separators |
| `IntArray.IntArrayToString` | main.go:210-216 | the method's array filled by index and joined gives exactly "[", the decimal forms joined by ",", then "[]" |
| `IntArray.IntArrayTextShape` | main.go:211-215 | the output starts with "[", ends with the two characters "[]", and holds max(n-1, 0) commas for n elements |
| `IntArray.IntArrayTextEmpty` | main.go:211-215 | the empty list is written "[[]" |
| `IntArray.IntArrayTextElements` | main.go:211-215 | for a non-empty list, the text between "[" and "[]" splits at commas into each element's decimal form, in input order, each reading back as that element |
| `IntArray.IntArrayTextIsNeverJson` | main.go:215 | for no list at all is the output a JSON integer array |
| `IntArray.JsonIntArrayRoundTrip` | main.go:210-215 | the intended text, closed by "]", reads back as the same list |
| `IntArray.IntArrayTextVsJson` | main.go:215 | the output is the intended JSON text with one extra '[' before its final ']' |
| `SymplaRequest.ServicePathCases` | main.go:166-169 | the path is "/v4/events/past" exactly for the mode "past", and "/v4/search" for every other mode |
| `SymplaRequest.SelectService` | main.go:165-169 | the selected path is "/v4/events/past" exactly when the mode is "past", and "/v4/search" exactly when it is not |
| `SymplaRequest.BuildRequestBody` | main.go:161-183 | the assembled body is the template filled with the selected path and the organizer text of the fixed ids |
| `SymplaRequest.ReadBody` | main.go:172-183 | whatever the reader accepts is the template filled with the two values it returns, the first free of quotes |
| `SymplaRequest.ReadFilled` | main.go:172-183 | filling the template with a quote-free path and any organizer text, then reading it, gives both values back |
| `SymplaRequest.OrganizerText` | main.go:163-183 | the organizer text spliced into the body is "[3125215,5478152[]" |
| `SymplaRequest.RequestBodyFields` | main.go:161-183 | every body holds its mode's service path and, for every mode, the same organizer text |
| `SymplaRequest.RequestBodiesDifferOnlyInService` | main.go:166-183 | two modes give the same body exactly when both or neither is "past", so only the path differs |
| `Formatter.FormatEventsMessage` | main.go:218-231 | the method's message is the header, then the notice for no events, or "Events:" and the block of each event in order |
| `Formatter.BlocksAppend` | main.go:224-227 | the blocks of two lists one after the other are the blocks of the first followed by those of the second |
| `Formatter.MessageCases` | main.go:219-221 | every reply starts with "#BOT DEVS OF LATIN", and is the header plus the unavailability notice exactly when the list is empty |
| `Formatter.BlockAt` | main.go:224-227 | the block of the i-th event lies between the blocks of the events before it and those after it |
| `Formatter.BlocksLength` | main.go:224-227 | the blocks of a list take the summed lengths of the shown fields plus 77 characters per event |
| `Formatter.MessageLength` | main.go:218-231 | a reply has 18 + 61 characters for no events, and otherwise 18 + 7 + the shown fields' lengths + 77 per event |
| `Formatter.ParseBlock` | main.go:225-226 | whatever the block reader accepts is one block with line-free fields, followed by the rest it returns |
| `Formatter.ParseFormatted` | main.go:218-231 | when no shown field holds a line break, reading a reply gives each event's name, city, Portuguese start date and URL, in input order |
| `Formatter.ParsedIsFormatted` | main.go:218-231 | every text the reply reader accepts is exactly the reply for events showing the values it read |

## Findings

| source | as written | input that shows it | evidently intended | confidence | as-written member | corrected member |
|---|---|---|---|---|---|---|
| main.go:215 | the array text is closed with `"[]"` | the organizer ids [3125215, 5478152] give `[3125215,5478152[]`, and [] gives `[[]` | close with `"]"`, giving the JSON array `[3125215,5478152]` | high; not executed | `IntArray.IntArrayTextIsNeverJson` | `IntArray.JsonIntArrayRoundTrip` |

The request body (`SymplaRequest.RequestBody`) keeps the text as written,
because it models what the code sends. `IntArray.JsonIntArrayText` is the
corrected serialiser. Its round trip is proved, and `IntArray.IntArrayTextVsJson`
states how the two texts differ.

## Left out

- The HTTP POST to the search endpoint, reading the response and closing it (main.go:185-197): network I/O. Their error paths are left out with them.
- JSON decoding of the response into `SymplaResponse` (main.go:26-28, 199-206): a library decoder that is not part of this model. Its lenient zero-value decoding is not modelled. `Formatter.EventOf` only builds events with empty unread fields in that spirit.
- The bot: `Bot`, `NewBot`, `Start`, the command registrations and dispatch on "start", "disponíveis" and "encerrados", and sending replies (main.go:18-23, 75-159): wrappers over the telego library. The handler at main.go:131 names its parameter `udpate` but uses `update` at line 140, which would not compile. This does not affect the modelled text.
- `main` (main.go:234-256): `.env` loading, the environment lookup of the token and process exit.
- The `float64` fields `Longitude` and `Latitude` of `Location` (main.go:38, 42): floating point, never read by the modelled code.
- Go's `int` is 64 bits wide. The model takes unbounded integers. `fmt.Sprint` writes the same decimal form for every value in range, and the fixed ids are far inside it.
- Go strings are byte sequences. Here text is a sequence of characters. So `Formatter.MessageLength` counts characters, not UTF-8 bytes (a city such as "São Paulo" differs).
- Go distinguishes a nil slice from an empty one (main.go:220). Both are the empty sequence here, and the source treats them alike.
- `IntArray.ParseJsonIntArray` reads JSON integer arrays without whitespace. RFC 8259 allows whitespace around values, but the texts compared here contain none.
- `Formatter.ParseFormatted`: holds only when the name, city, Portuguese date and URL contain no line break. A field with a line break makes the reply ambiguous, and nothing in the source prevents one.
