# Link store of the link-learning server

This project models the storage logic of `server.js`. That file is an Express
server that keeps a catalog of bookmark links in one JSON file. Each record has
a `title`, a `url`, an `emoji` and a `description`. Records are addressed by
their position in the stored array. The model covers:

- seeding: on start-up, when the data file does not exist, six sample links are
  written; an existing file is left alone (`Server.LinkStore.InitDataFile`);
- `GET /api/links`: the stored sequence is returned unchanged (`List`);
- `POST /api/links`: a record is built from the request body and appended at the
  end. `emoji` and `description` get their defaults (`'🔗'` and `''`) through the
  JavaScript `||` operator, so an absent or empty value takes the default. The
  `title` and `url` fields are copied without any check (`Create`, `Links.MakeLink`);
- `DELETE /api/links/:index`: the path segment goes through JavaScript's
  `parseInt`. When the result is a number in `[0, length)`, that one record is
  spliced out. Otherwise the handler answers "Link not found" and writes
  nothing (`Delete`, `Server.ResolveIndex`, `JsParseInt.ParseInt`,
  `Links.RemoveAt`).

Each handler reads the whole file. Each mutating handler (POST, and DELETE of
an existing position) changes the array in memory and writes the whole array
back; GET and a not-found DELETE write nothing. `Server.LinkStore` holds the state of the data file as
`Absent`, `Corrupt` (present but not valid JSON) or `Present(links)`. Each handler is a method that reassigns
this field in one atomic step. The file system's answers are parameters of the
methods: `readOk` says whether the read succeeds and `writeOk` whether the
write succeeds. An HTTP answer is an `Outcome`: `Ok(payload)`, `NotFound` or
`Failed`. These stand for the 200, 404 and 500 responses.

`JsParseInt.ParseInt` follows ECMAScript 2024, section 19.2.5 (`parseInt` with
no radix). It skips the full set of white-space and line-terminator characters
and takes an optional sign. A `0x`/`0X` prefix switches it to base 16. It then
reads the longest run of digits of that base. When there is no digit, the result
is NaN, which is `None` here. So `"1abc"` gives 1, `"-1"` gives -1, `"abc"` gives
NaN, and `"0x1A"` gives 26, which deletes position 26.

Facts about `server.js` that the model keeps:

- there is no title/url validation;
- there is no Update and there are no generated identifiers;
- Delete returns only a success flag, not the removed record;
- the `0x` hexadecimal prefix of `parseInt` is honoured.

Files: `wrappers.dfy` (`Option`), `links.dfy` (the record, its defaults, the
sample data, removal by position), `parse_int.dfy` (`parseInt`), `store.dfy`
(the data file and the handlers).

## Model

| member | source | states |
|---|---|---|
| Links.MakeLink | server.js:78-83 | `title` and `url` are copied verbatim, absent ones included; `emoji` is `'🔗'` when the request's emoji is absent or empty and the supplied value otherwise; `description` is `''` when absent or empty and the supplied value otherwise; the stored emoji is never empty |
| Links.MakeLinkRoundTrip | server.js:78-83 | posting back a stored record's own fields rebuilds exactly that record if and only if its emoji is non-empty |
| Links.DefaultLinksComplete | server.js:20-57 | the seed holds exactly six records, each with a non-empty title, url and emoji |
| Links.RemoveAt | server.js:102 | `splice(i, 1)`: the length drops by one, elements before `i` keep their positions, elements after `i` move down by one |
| Links.RemoveAtMultiset | server.js:102 | the removal takes away exactly the one element at `i` and keeps every other record |
| Links.RemoveAtUndoesAppend | server.js:85-102 | removing the last position right after an append gives back the sequence from before the append |
| JsParseInt.TrimStart | server.js:100 | the result is a suffix of the input that does not start with white space, and everything removed was white space |
| JsParseInt.DigitValue | server.js:100 | a character's digit value is below 10 exactly when it is a decimal digit, and at most 36 |
| JsParseInt.DigitRun | server.js:100 | the run is the longest prefix of digits of the base: every character in it is such a digit and the next one, if any, is not |
| JsParseInt.ParseIntDecimalPrefix | server.js:100 | the decimal numeral of any integer, followed by text that does not continue it (no digit, and no `x`/`X` after a lone `0`), parses back to that integer |
| JsParseInt.ParseIntRoundTrip | server.js:100 | `parseInt` of the decimal numeral of any integer is that integer |
| JsParseInt.ParseIntSkipsWhiteSpace | server.js:100 | leading white space does not change the result |
| JsParseInt.ParseInt | server.js:100 | skips leading white space, takes an optional `+`/`-` sign, lets `0x`/`0X` select base 16, reads the longest run of digits of the base, and gives NaN (`None`) when that run is empty; -0 becomes 0. Its contract: a number needs at least one decimal digit in the segment, so a segment without one is NaN, and a negative result comes only from a `-` sign after the leading white space |
| JsParseInt.ParseIntTrailingTextExample | server.js:100 | `"1abc"` parses to 1 |
| JsParseInt.ParseIntNegativeExample | server.js:100 | `"-1"` parses to -1 |
| JsParseInt.ParseIntNaNExamples | server.js:100 | `"abc"` and `""` are NaN |
| JsParseInt.ParseIntHexExamples | server.js:100 | `"0x1A"` parses to 26 and `"0x"` is NaN |
| Server.ResolveIndex | server.js:100-101 | a position is chosen exactly when `parseInt` gives a number in `[0, length)`, and it is that number; NaN, a negative number or one at or past the end give none |
| Server.LinkStore.constructor | server.js:8 | the store starts from the data file as found on disk |
| Server.LinkStore.InitDataFile | server.js:16-59 | a missing file becomes exactly the six sample links in their listed order; an existing file, readable or not, is untouched; start-up fails only when the seed cannot be written |
| Server.LinkStore.List | server.js:63-70 | succeeds exactly when the file can be read and decoded as an array of records, and then returns the stored sequence as it is, in stored order and unfiltered; otherwise reports a server error |
| Server.LinkStore.Create | server.js:73-92 | on success the file holds the old sequence with `MakeLink(req)` appended at the end, and that record is returned; a failed read or write reports a server error and leaves the file unchanged |
| Server.LinkStore.Delete | server.js:95-111 | a failed read reports a server error; a NaN, negative or out-of-range index reports not found; neither changes the file; otherwise the file holds `RemoveAt(links, i)` for the parsed `i` |
| Server.SeededStartupLists | server.js:114-119 | listing right after starting with no data file gives the six sample links in order |
| Server.CreateThenDeleteLast | server.js:73-111 | Create followed by Delete of the decimal position it appended at both succeed and leave the file as it was |

## Left out

- Express set-up, CORS, JSON body parsing, static files, `listen` and console logging (server.js:1-13, 113-119) are framework plumbing and are not modelled. The body parser's result is taken as a `LinkRequest`.
- JSON text encoding and decoding are not modelled. The data file is an abstract `DataFile`. A file that is not valid JSON is `Corrupt`: `JSON.parse` throws, and every handler answers with a server error.
- A file holding valid JSON other than an array of records is not modelled. The source answers differently from `Corrupt` there. For a file holding `{}` or `null`, GET answers 200 with that value (server.js:66). For a file holding `{}`, DELETE answers 404, because `index < undefined` is false (server.js:101). For a file holding `[{"title":"a"}]` (no emoji, so not a `Link`), POST appends and answers 200 (server.js:85-88), and DELETE `/0` splices and answers 200 (server.js:102-104).
- Request fields that are JSON values other than strings are not modelled. For example, the number `0` or `false` as `emoji` is also falsy for `||` in the source.
- Concurrency is not modelled. Two handlers running at once can interleave their read-modify-write cycles and lose an update, and the source has no lock. Each handler is one atomic step here.
- Server.LinkStore.Create: when the write fails, the model keeps the old file. In the source, `fs.writeFile` is not atomic, so a failed write may leave a truncated file.
- Server.LinkStore.Delete: when the write fails, the model keeps the old file, for the same reason as Create.
- Server.LinkStore.InitDataFile: when the seed write fails, the model keeps the file `Absent`. In the source, a failed `fs.writeFile` may leave a partial file behind, for the same reason as Create.
- JsParseInt.ParseInt: characters are Unicode scalar values, not UTF-16 code units. `-0` is the integer 0, which behaves the same in the bounds check and in `splice`. Numbers past 2^53 are exact here but rounded in JavaScript; every such number is past the end of the store either way.
- HTTP status codes and response bodies are reduced to `Outcome`.
