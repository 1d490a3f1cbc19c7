# nu_plugin_boltdb — a Dafny model of its core

`nu_plugin_boltdb` is a Nushell plugin for bbolt databases. It lists buckets and keys, and it gets, sets, adds and deletes them. This project models the plugin's pure and near-pure core and proves properties of that model:

- **the name formatter** (format.go). It turns a bucket or key name into a readable display string:
  - `printableRun` and `unprintableRun` split the bytes into maximal runs of printable and unprintable UTF-8 runes;
  - `tokenizeName` builds an alternating list of Text and Binary tokens, folding short printable runs into the preceding Binary token and quoting Text tokens in stringify mode;
  - `formatName`, `stringifyName` and `textName` render the tokens as `0x[..]` blocks and text joined as `[a, b, ...]`.
- **name and path conversion** (util.go, path.go, and the older copies in utils.go): `toBytes` and `toPath` turn values from the shell into byte names and bucket paths.
- **bucket resolution** (path.go and utils.go): `goToBucket` walks nested buckets. The older version reports errors through `pathStr`.
- **the flags** (flags.go): `getFormatter` chooses the renderer of names, and `location` reads the `bucket` and `key` flags.
- **the command handler** (main.go): `checkArgs` and the action dispatch in `boltCmdHandler`. `Command.Handle` uses `checkArgs` as written. `Command.HandleIntended` uses the corrected check described under "## Findings".
- **the configuration** (config.go): `configuration.parse`, the defaults of `loadCfg`, and the rule in `openDB` that decides whether a missing database may be created.

The model is organised as follows:

- The tokenizer works on an `array<byte>`, the buffer that `slices.Clone` makes. It is proved against a specification function, `Tokenizer.Tokenize`, that follows the loop iteration by iteration.
  - Go's `append` to the last Binary token shares the buffer. It is modelled as an in-place copy within the array, `NameBuffer.AppendInPlace`.
  - The methods prove that the buffer's contents never change.
- `configuration` is a class whose `Parse` method updates its fields while it walks the record.
- Everything that computes a value is a function with lemmas about it.

`unicode.IsPrint` is a parameter, `isPrint`. The lemmas that replay the test table in utils_test.go require only the ASCII facts the tests rely on: 0x20–0x7E are printable, and 0x00–0x1F and 0x7F are not.

The module layout:

- `Wrappers`: Option and Result.
- `Bytes`: hex digits and joining.
- `Utf8`: the decoder of section 3 of RFC 3629, as `utf8.DecodeRune` implements it.
- `Runs`, `Quoting`, `Tokenizer`, `NameBuffer`, `Format`: the formatter.
- `Examples`: the test table.
- `Values`, `Convert`, `Paths`, `Resolve`: names, paths and bucket resolution.
- `Flags`, `Config`, `Command`: flags, configuration and the command handler.

## Model

| member | source | states |
|---|---|---|
| Utf8.DecodeRune | format.go:96 | Empty input decodes to `(RuneError, 0)`. Any other input consumes between 1 and 4 bytes, never more than it has, and a decoding of more than one byte is a valid one. |
| Utf8.DecodeSound | format.go:96 | A valid decoding yields a Unicode scalar value whose UTF-8 encoding is exactly the bytes consumed. |
| Utf8.EncodeThenDecode | format.go:96 | Decoding the encoding of a scalar value, whatever follows it, gives back that value and the encoding's length. |
| Utf8.DecodePrefix | format.go:96 | Cutting the input anywhere after the bytes of a valid rune does not change the decoding. |
| Utf8.DecodeFailurePrefix | format.go:96 | A position that fails to decode still fails when the input is cut short after it. |
| Utf8.EncodeHighBytes | format.go:96-97 | Every byte of the encoding of a non-ASCII rune is at least 0x80. |
| Runs.FlagsIn | format.go:94-116 | The flags of a byte range are exactly those whose delimiter occurs in it. |
| Runs.PrintableRun | format.go:94-116 | Returns the end of the maximal run of decodable printable runes from `start`: every rune before it is printable, the rune at it is not, and `flags` are exactly the delimiters in the run. |
| Runs.UnprintableRun | format.go:118-127 | Returns the end of the maximal run of undecodable or unprintable runes. It is non-empty when the first rune is unprintable, and a printable rune follows it. |
| Runs.PrintableEndFacts | format.go:94-116 | The specification of the printable run is maximal: everything up to its end is printable, and what follows is not. |
| Runs.UnprintableEndFacts | format.go:118-127 | The same for the unprintable run. |
| Runs.RuneBytesFlag | format.go:100-111 | A printable rune sets a flag exactly when the delimiter's byte occurs among the rune's own bytes. |
| Bytes.HexRoundTrip | format.go:39 | `%x` writes exactly two digits per byte, and the digits read back to the bytes. |
| Bytes.UpperHexRoundTrip | flags.go:62 | `%X` writes exactly two digits per byte, and the digits read back to the bytes. |
| Bytes.UpperHexIsUpperCasedHex | flags.go:60-62 | `%X` writes the digits of `%x`, upper-cased. |
| Quoting.QuoteDelimiters | format.go:57-68 | A run with no flag is shown bare. Any other run is wrapped in one delimiter at both ends: `'` when the run has no `'`, else `` ` `` when it has no `` ` ``, else `"`. |
| Quoting.EscapeRoundTrip | format.go:66-67 | The `%q` escaping of `"` and `\` is undone by unescaping. |
| Quoting.QuoteRoundTrip | format.go:57-68 | Every quoting style that stringify mode picks can be undone: unquoting a quoted run gives back the run. |
| Quoting.QuoteBareIff | format.go:59 | A run is shown bare exactly when none of `"`, `'`, `` ` ``, `\` or space occurs in it. |
| Tokenizer.Iteration | format.go:48-90 | Each iteration of the tokenizer loop moves strictly forward without passing the end. When it stops short of the end, the last token is Binary, so the type assertions at lines 53 and 86 hold. |
| Tokenizer.ExtendLast | format.go:52-88 | Appending to the last Binary token keeps all other tokens and the token count. |
| Tokenizer.TokenizeEmptyIff | format.go:45-92 | The token list is empty exactly when the name is empty. |
| Tokenizer.TokenizeFromGrows | format.go:48-90 | The loop never drops a token, and it yields at least one token once it runs. |
| Tokenizer.IterationThrough | format.go:48-90 | A pass that stops short of the end is the printable-run step followed by the unprintable-run step, and the loop carries on from where that pass ends. |
| Tokenizer.TokenizeFlatten | format.go:45-92 | In text mode, the tokens' bytes concatenated in order are exactly the name. |
| Tokenizer.TokenizeFromFlatten | format.go:48-90 | Each step of the loop appends exactly the bytes it consumed. |
| Tokenizer.TokenizeShape | format.go:52-88 | Tokens alternate between Text and Binary. Every Text token except possibly the first is at least 3 bytes long, and no token is empty. |
| Tokenizer.TokenizeFromShape | format.go:48-90 | Each step keeps the tokens alternating and well-sized. |
| Tokenizer.TokenizeStringify | format.go:56-69 | Stringify mode yields the text-mode tokens with each Text token quoted, and nothing else changes. |
| Tokenizer.TokenizeFromStringify | format.go:48-90 | The loop commutes with quoting step by step. |
| Tokenizer.TokenizeEmpty | format.go:48 | An empty name has no tokens. |
| Tokenizer.TokenizePrintable | format.go:49-76 | A name that is one printable run is one Text token. |
| Tokenizer.TokenizeUnprintable | format.go:80-84 | A name that is one unprintable run is one Binary token holding the whole name. |
| NameBuffer.Resolve | format.go:52-88 | Token `k` of the resolved list is Text exactly when item `k` is a text item. |
| NameBuffer.AppendInPlace | format.go:52-88 | `append` into the shared buffer copies `n` bytes from `src` to `dst` and leaves every other byte as it was. |
| NameBuffer.SelfCopy | format.go:52-88 | When the last token ends exactly where the appended bytes begin, the copy rewrites those bytes with themselves, so the buffer does not change. |
| NameBuffer.ResolvePrintable | format.go:50-73 | Handling a printable run on the buffer's items matches the specification's step, and the last Binary item still ends at the current offset. |
| NameBuffer.ResolveUnprintable | format.go:80-88 | Handling an unprintable run on the buffer's items matches the specification's step and leaves the last item ending at the new offset. |
| NameBuffer.ContinueStep | format.go:48-90 | One full loop iteration on the buffer leaves the rest of the tokenization unchanged. |
| NameBuffer.ExitStep | format.go:75-77 | The iteration that reaches the end completes the tokenization. |
| NameBuffer.AddPrintable | format.go:50-73 | Appends to the item list exactly as the specification's printable step does, leaving the buffer unchanged. |
| NameBuffer.AddUnprintable | format.go:80-88 | Appends to the item list exactly as the specification's unprintable step does, leaving the buffer unchanged. |
| NameBuffer.TokenizeName | format.go:45-92 | The loop over the buffer returns `Tokenize` of the name and leaves the buffer's bytes unchanged. |
| Format.Clone | format.go:32 | A fresh array with the same bytes, so the caller's slice is never written. |
| Format.FormatName | format.go:31-43 | Renders `Tokenize` of the name, one string per token, and leaves the caller's array unchanged. |
| Format.RenderTokens | format.go:32-41 | The loop over the tokens returns `RenderAll`: one string per token, in order. |
| Format.StringifyName | format.go:13-20 | The display string of the stringify-mode tokens. |
| Format.TextName | format.go:22-29 | The display string of the text-mode tokens. |
| Format.RenderAllTokens | format.go:33-41 | One rendered string per token, in order. |
| Format.BinaryTextReadsBack | format.go:39 | A Binary token renders as `0x[`, two lowercase hex digits per byte, then `]`, and the digits read back to the bytes. |
| Format.DisplayEmpty | format.go:13-29 | An empty name is shown as `[]`. |
| Format.DisplayPrintable | format.go:22-29 | In text mode, a fully printable name is shown as itself. |
| Format.DisplayUnprintable | format.go:13-41 | A fully unprintable name is shown as one `0x[..]` block. |
| Format.DisplayTokens | format.go:13-29 | One token is shown bare; several are joined by `", "` inside `[` and `]`. |
| Examples.ShowsStr | utils_test.go:13 | `str` is shown as `str`. |
| Examples.ShowsFooBar | utils_test.go:14 | `foo bar` is shown as `'foo bar'`: a space alone forces single quotes. |
| Examples.ShowsApostrophe | utils_test.go:19 | `A'B` is shown in backticks. |
| Examples.ShowsApostropheQuote | utils_test.go:20 | `A'B"` is shown in backticks. |
| Examples.ShowsAllDelimiters | utils_test.go:21 | A run holding `'`, `` ` `` and `"` falls through to `%q`. |
| Examples.ShowsBackslash | utils_test.go:22-23 | A run that holds `'`, `` ` ``, `"` and `\` falls through to `%q`, which escapes both `"` and `\`. |
| Examples.ShowsEmpty | utils_test.go:43-44 | The empty name is shown as `[]`. |
| Examples.ShowsThreeControls | utils_test.go:47 | Bytes 0, 1, 2 are shown as `0x[000102]`. |
| Examples.ShowsHighBytes | utils_test.go:49 | Bytes 128, 127, 126, 125 are shown as `0x[807f7e7d]`. |
| Examples.ShowsShortFirstText | utils_test.go:71 | `A`, 0, 0 is shown as `[A, 0x[0000]]`: a short printable run at the start stays a Text token. |
| Examples.ShowsFoldAfterText | utils_test.go:72 | `B`, 255, 254, `A` is shown as `[B, 0x[fffe41]]`: a one-byte printable run is folded into the Binary token before it. |
| Examples.TokensFoldAfterText | utils_test.go:72 | The tokens of that name are Text `B` and Binary `fffe41`. |
| Examples.ShowsTextAfterBinary | utils_test.go:74 | `D`, 255, 254, `ABd` is shown as `[D, 0x[fffe], ABd]`. |
| Examples.ShowsFoldAfterBinary | utils_test.go:76 | 0, 1, `A` is shown as `0x[000141]`. |
| Examples.ShowsTwoFoldAfterBinary | utils_test.go:77 | 0, 1, `AB` is shown as `0x[00014142]`. |
| Examples.TokensFoldAfterBinary | utils_test.go:76-77 | After 0, 1, a run of one or two letters is folded into the Binary token. |
| Examples.ShowsShortTextBetweenBinary | utils_test.go:80 | 0, 1, `A`, 3, 4 is shown as `0x[0001410304]`. |
| Examples.ShowsTwoShortTextBetweenBinary | utils_test.go:81 | 1, 2, `AB`, 3, 4 is shown as `0x[010241420304]`. |
| Examples.TokensShortTextBetweenBinary | utils_test.go:80-81 | A run of one or two letters between two unprintable runs joins them into one Binary token. |
| Examples.ShowsTextBetweenBinary | utils_test.go:82 | 2, 3, `ABC`, 4, 5 is shown as `[0x[0203], ABC, 0x[0405]]`. |
| Examples.TokensTextBetweenBinary | utils_test.go:82 | The tokens of that name are Binary, Text `ABC`, Binary. |
| Examples.ShowsBinaryBetweenText | utils_test.go:84 | `A`, 0, 0x11, `A` is shown as `[A, 0x[001141]]`. |
| Examples.ShowsBinaryBetweenTwoText | utils_test.go:85 | `A`, 0, 0x11, `AB` is shown as `[A, 0x[00114142]]`. |
| Examples.TokensBinaryBetweenText | utils_test.go:84-85 | The first `A` stays a Text token, and the one or two letters at the end are folded into the Binary token. |
| Convert.BytesOf | util.go:10-43 | Binary values and strings are their own bytes. Only binary values, strings, integers and lists convert, and an out-of-range error is for an integer of 256 or more. |
| Convert.ToBytes | util.go:10-43 | Returns `BytesOf`, the conversion of a value to a byte name, including its error cases. |
| Convert.IntName | util.go:16-23 | An integer converts exactly when it is below 256. It becomes the one byte `t` modulo 256, the low eight bits of the `int64`, for every `t` below 256. |
| Convert.ListBytesOk | util.go:24-33 | A list converts exactly when each element does. |
| Convert.ListBytesFirstError | util.go:27-30 | A list fails with error `e` exactly when some element fails with `e` and every element before it converts. |
| Convert.ListBytesStopsAtError | util.go:27-30 | Once a prefix of the list fails, the elements after it are never looked at. |
| Convert.ListBytesAppend | util.go:31 | Converting two lists one after the other gives the concatenation of their bytes. |
| Convert.ListBytesLength | util.go:24-33 | The length of a converted list is the sum of its elements' lengths. |
| Paths.PathOf | path.go:20-47 | A converted list has one item per element, a converted cell path one item per member, and any other converted value one item. |
| Paths.ToPath | path.go:20-47 | Returns `PathOf`, the conversion of a value to a bucket path, including its error cases. |
| Paths.ListPath | path.go:22-30 | A list converts exactly when each element does. The result then has one item per element, in order, each with the element's bytes and span. |
| Paths.CellPathPath | path.go:31-41 | A cell path converts exactly when every member is a non-optional string. The result then has one item per member, holding the member's bytes. |
| Paths.CellPathError | path.go:33-39 | The error is that of the first member that is an integer or optional. |
| Paths.ScalarPath | path.go:43-45 | Any other value yields the single-item path of its own bytes and span. |
| Paths.CollectFirstError | path.go:22-41 | A loop fails with the error of the first element that fails, and only when every element before it succeeds. |
| Paths.LegacyToPath | utils.go:52-68 | Returns the older `toPath`'s conversion. |
| Paths.LegacyPathAgrees | utils.go:52-68 | The older `toPath` agrees with the current one on lists and scalars, and it rejects cell paths. |
| Resolve.Walk | path.go:51-55 | A failed walk reports a segment of the path. |
| Resolve.Resolved | path.go:49-57 | Succeeds exactly when every segment names a child of the bucket before it, with the bucket at the end of the path. An error names a segment of the path and that segment's span. |
| Resolve.GoToBucket | path.go:49-57 | The loop returns `Resolved`. An empty path returns the root. |
| Resolve.WalkFollowsPath | path.go:51-55 | The walk succeeds exactly when each segment names a child of the bucket before it, and it returns the bucket at the end of the path. |
| Resolve.WalkFailsAtFirstMissing | path.go:51-55 | The walk fails at segment `i` exactly when the first `i` segments resolve and segment `i` is missing. |
| Resolve.WalkStopsAtError | path.go:51-55 | Segments after the missing one are never looked at. |
| Resolve.MessageNamesBucket | path.go:53 | The error text holds the missing name in hex, and the name reads back from it. |
| Resolve.PathStr | utils.go:27-37 | The loop returns `PathText`: the per-segment text-mode renderings joined by `" -> "`, with no trailing separator. |
| Resolve.TrimTerminated | utils.go:31-36 | Trimming the final separator from the accumulated text leaves the segments joined by the separator. |
| Resolve.PathTextOne | utils.go:30-36 | A one-segment path is shown as that segment alone. |
| Resolve.LegacyGoToBucket | utils.go:15-25 | The older `goToBucket` loop returns `LegacyResolved`. An empty path returns the root. |
| Resolve.LegacyErrorNamesSegment | utils.go:17-21 | A missing first segment reports that the root bucket does not contain it. A missing segment `i > 0` names `pathStr` of the first `i` segments and the failing segment. |
| Resolve.VersionsAgree | utils.go:15-25 | Both versions of `goToBucket` succeed on the same paths and return the same bucket. |
| Flags.GetFormatter | flags.go:46-65 | No flag gives the default renderer. Any other renderer is chosen by its own mode name, and a word other than the four modes gives the default. |
| Flags.Render | flags.go:46-65 | Calling the chosen renderer on the name's array returns `Rendering`. |
| Flags.ModeNameRoundTrip | flags.go:50-64 | Each renderer is chosen by its own mode name. A `format` value selects a non-default renderer exactly when it is one of `stringify`, `text`, `hex` and `HEX`. |
| Flags.DefaultPassesThrough | flags.go:47-64 | With no flag, or with an unknown mode, the name is returned as binary, unchanged. |
| Flags.HexIsLowercase | flags.go:60 | `%x` writes only lowercase hex digits. |
| Flags.HexRendering | flags.go:59-60 | `hex` shows exactly two lowercase digits per byte, with no prefix, and they read back to the name. |
| Flags.UpperHexRendering | flags.go:61-62 | `HEX` shows the digits of `hex`, upper-cased, and they read back to the name. |
| Flags.LosslessRenderers | flags.go:48-62 | The binary, hex and HEX renderers map different names to different values. |
| Flags.Location | flags.go:11-26 | An error concerns a flag that was given and is that flag's conversion error. With neither flag given there is no bucket path and no key. |
| Flags.LocationOk | flags.go:11-26 | `location` succeeds exactly when each given flag converts. It returns a path exactly when `bucket` was given and a key exactly when `key` was given, and the key keeps the flag's span. |
| Flags.LocationFailure | flags.go:12-22 | A bucket flag that fails to convert is reported first. A key flag that fails to convert is reported only if the bucket flag is absent or converts. |
| Config.Configuration.constructor | config.go:70-75 | The defaults: 3 s timeout, not read-only, mode 0600, may create. |
| Config.Configuration.Parse | config.go:24-59 | The new fields and error are `ParseValue` of the old fields and the value. |
| Config.ParseSucceeds | config.go:29-58 | Parsing a record succeeds exactly when every recognised key holds a value of its type. |
| Config.ParsedFields | config.go:29-57 | After a successful parse, each field holds its key's last value, or the old value if the key is absent. |
| Config.ApplyWellTyped | config.go:31-55 | A well-typed key overwrites exactly its own field. |
| Config.UnknownFieldsIgnored | config.go:29-57 | Unrecognised keys change nothing. |
| Config.ParseStopsAtBadField | config.go:31-55 | At the first wrong-typed key, parsing stops with that key's error. A wrong-typed boolean or timeout leaves its field at the zero value, and a wrong-typed `fileMode` leaves its field unchanged. |
| Config.FileModeOf | config.go:51 | `fs.FileMode(m)` keeps `m` modulo 2^32. |
| Config.KnownFields | config.go:30-56 | Keeps every field with a recognised key and no other field, and is never longer than the record. |
| Config.LoadCfg | config.go:69-89 | Returns a fresh configuration whose state and error are `Load` of the plugin configuration. |
| Config.LoadOutcome | config.go:77-88 | Loading succeeds exactly when there is no configuration, or the configuration is a record whose recognised keys all hold values of their types. Each setting is then its key's last value, or its default. |
| Config.OpenDB | config.go:91-119 | Opens exactly when the configuration loads and the file exists, or it is missing while `mustExist` is false and the action is `add` or `set`. It then opens with the configured mode, timeout and read-only flag. A failing `os.Stat` for any other reason is an invalid database name. |
| Config.MissingDatabaseRule | config.go:98-108 | A missing database is an error unless `mustExist` is false and the action is `add` or `set`. |
| Config.DefaultMayCreate | config.go:70-108 | With the defaults, only `add` and `set` may create a missing database. |
| Config.ConfigCheckedFirst | config.go:91-95 | A configuration that does not load is reported before the file is looked at. |
| Command.CheckArgsAsWritten | main.go:111-140 | `checkArgs` as written, which sees data only when exactly one `data` argument is given. A call passes exactly when it breaks no rule so read, and it then gets its action back. Otherwise the error is the first rule it breaks. |
| Command.CheckArgs | main.go:111-140 | The same for the intended reading, where any `data` argument counts. |
| Command.FirstViolationReported | main.go:111-140 | The error is the first rule the call breaks. A call that breaks none gets its action back unchanged. |
| Command.AcceptedCall | main.go:115-137 | In an accepted call, `path` never appears beside a location flag. Only `set` takes data or input, never both. `get` and `set` have a key, a key appears only with `get`, `set` and `delete`, and a filter appears only with `buckets` and `keys`. |
| Command.ExtraDataSlipsThrough | main.go:119-126 | The check as written accepts two `data` arguments that the intended check refuses. |
| Command.ReadingsAgree | main.go:119-126 | Both readings agree on calls with at most one `data` argument. |
| Command.ActionWordsRoundTrip | main.go:89-108 | Each action is selected by its own word. A word outside the eight is an unknown action. |
| Command.Handle | main.go:77-109 | `boltCmdHandler` as written, on top of `CheckArgsAsWritten`. It reports an argument error exactly when that check fails. It dispatches exactly when the check passes, the database opens and the action word is one of the eight, and then to the action that the word names. After a passing check, a database that does not open gives `OpeningFailed` with `OpenDB`'s error (main.go:83-86), and an opened database with a word outside the eight gives `UnknownAction` with that word (main.go:106-107). |
| Command.HandleIntended | main.go:77-109 | The same handler on top of the intended `CheckArgs`: an argument error exactly when `CheckArgs` fails; dispatch exactly when it passes, the database opens and the word is one of the eight; otherwise `OpeningFailed` with `OpenDB`'s error, or `UnknownAction` with the word. |
| Command.DispatchedExactly | main.go:77-109 | A call reaches action `a` exactly when it passes the check as written, the database opens and its word is `a`'s name. |
| Command.IntendedDispatchedExactly | main.go:77-109 | The same for the intended handler and the intended check. |
| Command.HandlersAgree | main.go:77-126 | The two handlers agree on every call with at most one `data` argument. |
| Command.ExtraDataDispatched | main.go:77-126 | The handler as written dispatches a `get` with a key and two `data` arguments, which the intended handler refuses. |
| Command.UnknownActionNeedsDatabase | main.go:83-107 | An unknown action is reported only once the database is open, by either handler. |
| Command.GetNeedsKey | main.go:119-129 | A `get` that the handler as written dispatches has a key and no pipeline input. It never has exactly one `data` argument, though it may have two or more. |
| Command.IntendedGetNeedsKey | main.go:119-129 | A `get` that the intended handler dispatches has a key and carries neither data nor input. |

## Left out

- The bbolt storage engine: transactions, creating and deleting buckets and keys, cursors, statistics (value.go, list.go, bucket.go, delete.go, stat.go). Only "child bucket by name" is modelled, as a tree of maps (`Resolve.Bucket`).
- Opening the database file with `bbolt.Open` and its timeout and read-only options (config.go:114-118). The model's `OpenDB` stops at the options it would pass.
- The plugin protocol, the run loop and result streaming (main.go:21-34), and `quitSignalContext` (main.go:142-154). These are I/O and concurrency.
- The regular-expression filter `getFilter` (flags.go:28-44, list.go:88-99). It wraps Go's regexp engine.
- File and plugin I/O:
  - `os.Stat` becomes a `FileStatus` parameter;
  - `GetPluginConfig` becomes a `PluginConfig` parameter.
- Unicode tables: `unicode.IsPrint` is the parameter `isPrint`.
- `%q` escaping only escapes `"` and `\`. A printable run holds only printable runes, so no other character needs escaping.
- `nu.Error` labels, help texts and URLs, and the exact texts of the configuration and argument errors. These become error variants that carry the value or span concerned. The texts of `goToBucket`'s errors, in both versions, are modelled.
- `Paths.ToPath`: in the scalar case, path.go:45 returns a one-item path beside the error. The model returns only the error, because every caller discards the path when there is an error.
- `Paths.LegacyToPath`: in the scalar case, utils.go:64-66 also returns a one-item path beside the error. The model returns only the error, for the same reason.
- Go's map iteration order. `Config.Configuration.Parse` walks the record as a sequence in a fixed order. Which wrong-typed key is reported when there are several depends on that order.
- `Flags.GetFormatter` takes the `format` flag's value as an optional string. flags.go:54 asserts `fmtFlag.Value.(string)`, which panics on a value of another type; that panic is not modelled.
- `format` is not a declared flag of the signature (main.go:50-57), and no file of the repository calls `getFormatter`. The renderers are modelled as the function stands, not as part of a command.
- `Config.Configuration.Parse` takes the record as a sequence of fields, which can repeat a key. A Go record is a map and has distinct keys, so "each key's last value" only matters for inputs the program never receives.
- flags.go:63-64 passes an unknown mode through as binary; no error is reported.
- Type assertions that the plugin's signature guarantees, such as the action and database name being strings (main.go:123, config.go:97), are taken as given.
- The `path` flag is not declared in the signature (main.go:55 is commented out). `Command.Call` still carries it, so the first check of `checkArgs` is modelled as written.
- Stale copies that cannot compile together with the current ones:
  - `location` in utils.go:40-50;
  - `getFilter` in list.go;
  - `addBucket` in value.go.
- The copy of the tokenizer in utils.go:96-218 is the same code as format.go:13-135 and is modelled once. utils.go's `toBytes` (70-94) differs from util.go's only in its error texts, and `Paths.LegacyPathOf` uses util.go's conversion.
- nil and empty slices are not told apart. Both are the empty sequence.
- `Runs.PrintableRun`: the five flags are modelled as a set of flag names rather than the bits of a `uint32`.

## Findings

| source | as written | input that shows it | evidently intended | confidence | as-written member | corrected member |
|---|---|---|---|---|---|---|
| main.go:119-126 | `len(call.Positional) == 3` counts a call as carrying data only when exactly one `data` argument follows the action, but `data` is a rest argument (main.go:62) | `get` with a `key` flag and two `data` arguments passes `checkArgs`. So does `set` with two `data` arguments and pipeline input. | `len(call.Positional) > 2`: any `data` argument counts, so both calls are refused | medium; not executed | Command.CheckArgsAsWritten, Command.Handle, Command.ExtraDataSlipsThrough, Command.ExtraDataDispatched | Command.CheckArgs, Command.HandleIntended, Command.AcceptedCall, Command.IntendedGetNeedsKey |
