# libsql-studio: driver, query tab and table cell logic in Dafny

This project models the deterministic core of libsql-studio, a browser-based
SQLite/libSQL client:

- **Identifier escaping** (`DatabaseDriver.escapeId`): every double quote is doubled.
- **Lazy stream acquisition** (`DatabaseDriver.getStream`): the stored stream is reused
  while it is open, and a fresh stream is opened when it is missing or closed.
- **Driver queries**:
  - `query` sends one statement on the acquired stream.
  - `multipleQuery` sends a list of statements in order on one stream and answers with
    the last one's rows, or with nothing for an empty list.
  - `getTableList` keeps the catalog rows whose `type` is `table` and lists their names.
  - `selectFromTable` builds the paged-read statement and its two bound arguments.
- **The query tab's run handler** (`query-tab.tsx`):
  - Selection: Run All sends every statement; Run Current sends at most the statement
    under the caret; an empty selection sends nothing.
  - After a run, the create/drop classifier decides whether the schema must be refreshed.
- **The table cell** (`generic-cell.tsx`):
  - `prettifyBytes` is the per-byte escaper for blob cells.
  - The blob cell shows only its first 64 bytes.
  - The type-mismatch marker has its own show condition.

Modules follow the program's structure:

| module | file | models |
|---|---|---|
| `Common` | common.dfy | `Option`, `Result`, bytes, occurrence counts |
| `JsText` | js_text.dfy | the JavaScript string operations the code relies on: `trim`, `substring`, `toLowerCase`/`toUpperCase` (ASCII), `padStart`, `toString(16)` |
| `EscapeIdent` | escape_id.dfy | `escapeId` and its inverse |
| `StreamHolder` | stream_holder.dfy | the `stream` slot and `getStream` |
| `DatabaseDriver` | driver.dfy | `query`, `multipleQuery`, `getTableList` |
| `PagedSelect` | paged_select.dfy | `selectFromTable`, with the placeholder count of its SQL |
| `QueryTab` | query_tab.dfy | statement selection and the schema-change loop of `onRunClicked` |
| `GenericCell` | generic_cell.dfy | `prettifyBytes`, its decoder, the blob preview and the mismatch marker |

The remote database is abstract. It is a state `S` plus a function
`exec: (S, Stream, Stmt) -> (Reply, S)` that answers one statement sent on one stream.
A `Failed` reply stands for a rejected `stream.query` promise. The driver's `World`
records every statement sent and the stream it went on, so the contracts can talk
about what is sent, in which order, and on which stream.

Stream numbering: `client.openStream()` hands out stream number `openCount` and
advances the counter. A stream's `closed` flag is set by the client, an event outside
the driver, which `StreamHolder.StreamClosed` models.

Two behaviours of the code shape the model:

- `close()` (src/drivers/DatabaseDriver.tsx:54-56) only closes the client; the stored
  stream is left as it is, and a later `getStream` behaves as usual.
- The schema-change loop (src/components/gui/tabs/query-tab.tsx:128-141) inspects every
  log entry, failed or not. `QueryTab.SchemaChanged` therefore ranges over all entries
  and ignores their `error` field.

## Model

| member | source | states |
|---|---|---|
| JsText.TrimStartShape | src/components/gui/tabs/query-tab.tsx:130 | `trim`'s leading half removes exactly a run of whitespace: the kept text is a suffix of the input that does not start with whitespace, and everything cut off is whitespace |
| JsText.TrimEndShape | src/components/gui/tabs/query-tab.tsx:130 | the trailing half removes exactly a run of whitespace: the kept text is a prefix that does not end with whitespace, and the cut-off tail is all whitespace |
| JsText.TrimPadded | src/components/gui/tabs/query-tab.tsx:130 | `trim` ignores any whitespace added at either end: `Trim(ws1 + s + ws2) == Trim(s)` |
| EscapeIdent.EscapeId | src/drivers/DatabaseDriver.tsx:15-17 | the escaped length is the input length plus the number of quotes; every quote in the output is paired; a quote-free identifier is returned unchanged |
| EscapeIdent.EscapeIdConcat | src/drivers/DatabaseDriver.tsx:16 | escaping works character by character and in order: it distributes over concatenation |
| EscapeIdent.EscapeIdChar | src/drivers/DatabaseDriver.tsx:16 | a quote becomes `""`, and every other character is kept as it is |
| EscapeIdent.UnescapeEscape | src/drivers/DatabaseDriver.tsx:16 | collapsing `""` back to `"` recovers the original identifier |
| EscapeIdent.EscapeUnescape | src/drivers/DatabaseDriver.tsx:16 | every string whose quotes are paired is the escaping of its collapse, so the escaped strings are exactly the quote-paired ones |
| EscapeIdent.EscapeIdInjective | src/drivers/DatabaseDriver.tsx:16 | distinct identifiers never escape to the same text |
| StreamHolder.OpenStream | src/drivers/DatabaseDriver.tsx:23 | `openStream` returns an open stream whose number is below the advanced counter |
| StreamHolder.GetStream | src/drivers/DatabaseDriver.tsx:19-31 | an open stored stream is returned with nothing changed; a missing or closed one is replaced by exactly one freshly opened stream, which is stored and returned; the returned stream is always open and stored; the stream-numbering invariant is kept; after a close the new stream differs from the closed one |
| StreamHolder.StreamClosed | src/drivers/DatabaseDriver.tsx:21 | the client's close leaves the slot occupied (or empty) with the same stream number and the counter unchanged, keeps the stream-numbering invariant, and the stored stream is no longer reusable |
| StreamHolder.GetStreamIdempotent | src/drivers/DatabaseDriver.tsx:19-31 | two consecutive calls with no close in between return the same handle, and the second opens nothing |
| StreamHolder.GetStreamTimesStable | src/drivers/DatabaseDriver.tsx:19-31 | any number of consecutive calls all return what the first call returned, and at most one stream is opened in all |
| StreamHolder.ReopenAfterClose | src/drivers/DatabaseDriver.tsx:20-24 | once the client closes the stored stream, the next call opens the next-numbered stream, which differs from the closed one |
| DatabaseDriver.Query | src/drivers/DatabaseDriver.tsx:33-41 | exactly one statement is sent, appended to what was sent before, on the stream `getStream` returns (which it leaves stored and open); the reply and the new remote state are the remote's answer to that statement on that stream |
| DatabaseDriver.QueryIsOneStatementRun | src/drivers/DatabaseDriver.tsx:33-52 | `query` of a bare statement agrees with a one-statement `multipleQuery` run on the same stream: same reply, same remote state, same statement sent |
| DatabaseDriver.RunAllPrefix | src/drivers/DatabaseDriver.tsx:47-49 | the sequential run is prefix-closed: running the first `i` statements gives the first `i` replies |
| DatabaseDriver.FirstFailed | src/drivers/DatabaseDriver.tsx:47-49 | when some reply is a rejection, it finds the first one: every earlier reply has rows |
| DatabaseDriver.FirstFailedAt | src/drivers/DatabaseDriver.tsx:47-49 | a rejection preceded only by rows is the first rejection |
| DatabaseDriver.RunStep | src/drivers/DatabaseDriver.tsx:47-49 | sending statement `i` after the first `i` gives reply `i` of the whole run and the state the first `i + 1` statements reach |
| DatabaseDriver.SendAll | src/drivers/DatabaseDriver.tsx:47-49 | the loop sends statements in order until one is rejected: with no rejection it sends them all and keeps the last rows; otherwise it stops right after the first rejection, whose message is the answer, and the remote is in the state those sends reach |
| DatabaseDriver.MultipleQuery | src/drivers/DatabaseDriver.tsx:43-52 | the stream is acquired once, and the statements go on it in list order. If every statement gives rows, all of them are sent and the answer is the last one's rows, or none for an empty list. Otherwise the answer is the first rejection, and nothing after the rejected statement is sent |
| DatabaseDriver.TableList | src/drivers/DatabaseDriver.tsx:61-67 | there are never more entries than rows, and the list is empty exactly when no row has type `table` |
| DatabaseDriver.TableListConcat | src/drivers/DatabaseDriver.tsx:61-67 | the filter works row by row and keeps row order: the list of a concatenation is the concatenation of the lists |
| DatabaseDriver.TableListSingle | src/drivers/DatabaseDriver.tsx:62-66 | one row contributes its `name` exactly when its `type` is `table`, and nothing otherwise |
| DatabaseDriver.TableListMembers | src/drivers/DatabaseDriver.tsx:61-67 | every listed name belongs to a table row, and every table row's name is listed |
| DatabaseDriver.GetTableList | src/drivers/DatabaseDriver.tsx:58-68 | the catalog query is sent as one `query`, after everything sent before. The call succeeds exactly when that query gives rows, and then the answer is the table list of those rows; otherwise the answer is the rejection's message |
| PagedSelect.SelectStatement | src/drivers/DatabaseDriver.tsx:77-78 | the binding is `[limit, offset]`; the text starts with `SELECT * FROM `; its length is the fixed parts plus the escaped name; the table name can be read back from the text |
| PagedSelect.SelectStatementInjective | src/drivers/DatabaseDriver.tsx:77 | different tables never give the same statement text |
| PagedSelect.SelectFromTable | src/drivers/DatabaseDriver.tsx:70-80 | exactly one statement is sent, after everything sent before, on the stream `getStream` returns; its binding is `[limit, offset]`, its text names the requested table, and the reply is the remote's answer to it |
| PagedSelect.ScanEscaped | src/drivers/DatabaseDriver.tsx:16 | inside a quoted identifier, an escaped name holds no placeholder and leaves the identifier open |
| PagedSelect.SelectPlaceholdersAsWritten | src/drivers/DatabaseDriver.tsx:77-78 | for a quote-free name, the statement as built has `2 + (number of ? in the name)` placeholders by the scan's count (which ignores comments and string literals); this matches its two arguments exactly when the name has no `?` |
| PagedSelect.SelectPlaceholderMismatch | src/drivers/DatabaseDriver.tsx:77-78 | the table name `a?b` gives three placeholders for two bound arguments |
| PagedSelect.QuotedSelectStatement | src/drivers/DatabaseDriver.tsx:77-78 | with the escaped name inside double quotes, the placeholder count always equals the two arguments, and the table name can be read back |
| PagedSelect.QuotedSelectFromTable | src/drivers/DatabaseDriver.tsx:70-80 | the paged read with the name quoted sends exactly one statement, whose binding is `[limit, offset]`, whose placeholder count equals its two arguments for every table name, and whose text names the requested table |
| QueryTab.FinalStatements | src/components/gui/tabs/query-tab.tsx:99-112 | Run All forwards exactly the statement texts, in order; Run Current forwards at most one; the one it forwards is the statement located under the caret; a located statement is always forwarded |
| QueryTab.RunCurrentWithinRunAll | src/components/gui/tabs/query-tab.tsx:103-111 | when the statement under the caret is one of the identified statements, Run Current forwards exactly one text, and Run All forwards that text too |
| QueryTab.OnRunClicked | src/components/gui/tabs/query-tab.tsx:114 | a run is dispatched exactly when the final list is non-empty, and it carries that list |
| QueryTab.NothingToRun | src/components/gui/tabs/query-tab.tsx:103-114 | Run All over no statements, and Run Current with no editor view or no statement under the caret, dispatch nothing |
| QueryTab.PrefixLowerMatches | src/components/gui/tabs/query-tab.tsx:130-131 | comparing the lower-cased `substring(0, n)` with an `n`-character keyword is a case-insensitive prefix test |
| QueryTab.MarksSchemaChangeMeaning | src/components/gui/tabs/query-tab.tsx:129-141 | an entry marks a schema change exactly when its trimmed text begins, ignoring case, with `create ` or `drop ` |
| QueryTab.MarksSchemaChangeIgnoresPadding | src/components/gui/tabs/query-tab.tsx:130-137 | whitespace around an entry's text does not change the decision |
| QueryTab.KeywordNeedsSpace | src/components/gui/tabs/query-tab.tsx:130-137 | a matching entry has a literal space right after the keyword |
| QueryTab.OtherStatementsDoNotMatch | src/components/gui/tabs/query-tab.tsx:129-141 | a trimmed text whose first letter is not `c` or `d` (in either case) never matches |
| QueryTab.TrimUnpadded | src/components/gui/tabs/query-tab.tsx:130 | a text with no whitespace at either end is its own trim |
| QueryTab.CreateTableMatches | src/components/gui/tabs/query-tab.tsx:130-134 | `CREATE TABLE t (x int);` marks a schema change |
| QueryTab.BareKeywordDoesNotMatch | src/components/gui/tabs/query-tab.tsx:130-141 | neither `create` alone nor `drop` followed by a tab marks a schema change |
| QueryTab.SelectAndAlterDoNotMatch | src/components/gui/tabs/query-tab.tsx:129-141 | `SELECT …` and `ALTER TABLE …` do not mark a schema change |
| QueryTab.HasAlterSchema | src/components/gui/tabs/query-tab.tsx:127-142 | the flag is set exactly when some entry, failed or not, marks a schema change (so an empty log gives false). The loop stops at the first marking entry, and every entry before it was examined and did not mark |
| QueryTab.OnRunComplete | src/components/gui/tabs/query-tab.tsx:123-146 | the results are shown, and the schema is refreshed once exactly when the log shows a schema change, otherwise never |
| GenericCell.HexByte | src/components/gui/table-cell/generic-cell.tsx:131 | the upper-cased, zero-padded `toString(16)` of a byte is its two upper-case hex digits, high digit first |
| GenericCell.HexByteDigits | src/components/gui/table-cell/generic-cell.tsx:131 | `toString(16)`, `toUpperCase` and `padStart(2, "0")` together give the high and low hex digits of the byte |
| GenericCell.Piece | src/components/gui/table-cell/generic-cell.tsx:126-132 | each byte's piece has 1, 2 or 4 characters |
| GenericCell.PieceBackslash | src/components/gui/table-cell/generic-cell.tsx:127-128 | byte 0x5C becomes two backslashes |
| GenericCell.PiecePlain | src/components/gui/table-cell/generic-cell.tsx:129-130 | a byte from 0x20 up, other than 0x5C and 0x7F, becomes the one character with that code |
| GenericCell.PieceHex | src/components/gui/table-cell/generic-cell.tsx:131 | a byte below 0x20, or 0x7F, becomes `\x` and its two upper-case hex digits |
| GenericCell.Prettify | src/components/gui/table-cell/generic-cell.tsx:124-134 | for `n` bytes the text has between `n` and `4n` characters |
| GenericCell.PrettifyFront | src/components/gui/table-cell/generic-cell.tsx:125-133 | the text is the first byte's piece followed by the text of the remaining bytes |
| GenericCell.PrettifyConcat | src/components/gui/table-cell/generic-cell.tsx:124-134 | the text is one piece per byte, in order: it distributes over concatenation |
| GenericCell.DecodePiece | src/components/gui/table-cell/generic-cell.tsx:126-132 | the decoder reads each piece back as its byte |
| GenericCell.DecodeFront | src/components/gui/table-cell/generic-cell.tsx:126-132 | any decodable text starts with the piece of its first decoded byte |
| GenericCell.UnprettifyPrettify | src/components/gui/table-cell/generic-cell.tsx:124-134 | decoding the text gives back exactly the bytes: the display is uniquely decodable |
| GenericCell.PrettifyUnprettify | src/components/gui/table-cell/generic-cell.tsx:124-134 | any text the decoder accepts is the display of what it decodes to |
| GenericCell.PrettifyInjective | src/components/gui/table-cell/generic-cell.tsx:124-134 | different byte strings are never shown the same way |
| GenericCell.BlobBytes | src/components/gui/table-cell/generic-cell.tsx:158 | `new Uint8Array(value)` keeps the length; bytes are taken as they are, and each number is reduced modulo 256 |
| GenericCell.BlobPreview | src/components/gui/table-cell/generic-cell.tsx:158-163 | the preview is a prefix of the whole blob's display, at most 256 characters long, and the whole display when the blob has at most 64 bytes. It decodes to exactly the first min(64, length) bytes |
| GenericCell.ShowsMismatch | src/components/gui/table-cell/generic-cell.tsx:279 | the marker is shown exactly when the value type and the column type are both present and differ |

## Left out

- Rendering, hooks and state setters: the React components and the whole of
  `TableCombobox.tsx`. They are UI with no decision logic.
- The hrana WebSocket client and the network: `openWs`, the constructor, and the real
  `stream.query`. The remote side is the `exec` parameter over an abstract state, and
  opening a stream is a counter.
- `close()` only calls the client's `close`. The client is not part of this model, so
  `close()` has no effect on the modelled state.
- Console logging (`console.info`, and `console.error` on a rejected run).
- Functions whose source is not part of this model, treated as abstract inputs:
  - `identify` (statement segmentation): its output is the `statements` input.
  - `selectStatementFromPosition`: the `Locator` parameter.
  - The query tab's own `multipleQuery` helper, with its progress and error policy: the
    completion handler gets its result and log as inputs.
  - `sql-formatter`, `isLinkString`, `findFirst` and `convertDatabaseValueToString`.
- The Float32 vector rendering of blob cells, and the `toLocaleString` byte count.
- QueryTab.MarksSchemaChange lower-cases ASCII letters only. Full Unicode
  `toLowerCase` gives the same decision, because the keywords `create ` and `drop ` are
  all ASCII and contain neither `i` nor `k`. The only non-ASCII characters that
  lower-case to ASCII are U+0130 (to `i` plus a combining dot) and the Kelvin sign
  (to `k`), so a prefix that holds any non-ASCII character never equals a keyword
  either way.
- Strings are sequences of Unicode characters rather than UTF-16 code units. The
  decisions modelled compare with ASCII text, where the two agree.
- PagedSelect.Placeholders counts `?` outside double-quoted identifiers only. SQLite
  string literals, comments and numbered parameters are not part of the scan; the
  statement it is used on has none of them outside the table name.
- GenericCell.BlobBytes takes the entries of a number array to be integers. A JavaScript
  number can also be fractional, NaN or infinite, which `Uint8Array` truncates toward
  zero or maps to 0; those values are not modelled.
- PagedSelect.SelectStatement takes `limit` and `offset` as integers. They are
  JavaScript numbers bound unchanged, so a fractional or non-finite value is not
  modelled.
- GenericCell.ShowsMismatch assumes every column type is truthy. In the application's
  enumeration every member is a non-empty value, so `valueType &&` is a presence test.
- DatabaseDriver.MultipleQuery models each driver call as finishing before the next one
  starts: a call takes the driver's state and returns the next one, so the statements of
  one `multipleQuery` go out back to back. In the code, other calls on the same driver
  (`query`, `getTableList`, `selectFromTable`) can send on the shared stream at each
  `await` between two of its statements; that interleaving is not modelled.
- DatabaseDriver.Value has no floating-point case, and DatabaseDriver.Reply keeps only a
  result's rows, not its column names, `rowsAffected` or `lastInsertRowid`. No modelled
  decision depends on either, so `multipleQuery` answers with the last result's rows.
- DatabaseDriver.GetTableList keeps a row's `name` as whatever value the row holds. The
  `as string` cast has no effect at run time.

## Findings

| source | as written | input that shows it | evidently intended | confidence | as-written member | corrected member |
|---|---|---|---|---|---|---|
| src/drivers/DatabaseDriver.tsx:77 | the escaped table name is spliced into `SELECT * FROM … LIMIT ? OFFSET ?;` without the double quotes that `escapeId`'s quote doubling is meant for | table name `a?b`: the statement has three `?` placeholders but two bound arguments | the escaped name wrapped in `"…"`, so that any table name is one identifier and the statement always has exactly two placeholders | not executed | PagedSelect.SelectPlaceholderMismatch | PagedSelect.QuotedSelectFromTable |
