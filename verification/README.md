# Verified model of the hard cores of nubi

This project models, in Dafny 4.11, the parts of the repository whose correctness is hard to see by reading:
printers that a reader must be able to undo, a stream parser that must not depend on how the stream is cut,
protocols with interleaved tasks, crashes and shared state, and data transformations with exact laws. Each
module names the source file it models. `dafny verify dfyconfig.toml` checks everything.

Where the code meets a promise only under a condition, the condition is stated and proved in both directions:
the property holds if and only if the input meets it, and the condition is one a caller can check beforehand.

## What is modelled

| modules | source | what is proved |
|---|---|---|
| `PdfBuilder`, `PdfText`, `PdfDocument`, `PdfFile`, `PdfContent`, `PdfSyntax`, `PdfReader`, `PdfPaint` | `backend/app/pdf.py` | A reader and painter written from ISO 32000-1 (sections 7.2, 7.3, 7.5.4, 7.5.5, 7.7.3, 7.8, 8.4, 9.3, 9.6.2) and independent of the printer sees on every page what was drawn there: each text with its typeface, size, colour, place and characters, each rectangle and line; the file is readable exactly while its last object starts below 10^10 bytes. |
| `Sse`, `SseCuts`, `SseTurns` | `embed/widgets/nubi-chat.js` | Where the stream is cut is immaterial to the chat element exactly for texts in which no frame has a line of carriage returns alone between its data; what a turn leaves and announces, and under which identifier a conversation goes on, is stated from its events alone; every frame a server writes is heard once. |
| `Csv` | `embed/widgets/csv.js` | An RFC 4180 section 2 parser returns every cell text, exactly when every row has a cell. |
| `Bridge`, `BridgeRuns`, `Ingest` | `cli/nubi_cli/bridge_agent.py`, `cli/nubi_cli/bridge_sources.py` | Protocol safety over every run with heartbeats interleaved, with exactly one reply per claim, a manifest for each ingest that returned and an error for each that raised; a manifest of whole-file sizes and digests for any short reads, exactly when every file can be uploaded. |
| `Migrate`, `MigrateRuns` | `database/migrate.py` | Any number of concurrent runners, any crashes: nothing takes effect twice, the ledger is the set of effects, the order of the files is kept, the enterprise layer comes only where asked for, and runners never block each other for good. |
| `Portable`, `PortableRows`, `ProjectFiles`, `ProjectTrip`, `ProjectKeeps` | `cli/nubi_cli/project.py`, `backend/app/portability.py` | Row to envelope to file tree and back, with exact conditions for what survives. |
| `Dotenv`, `Secrets`, `SecretsAgain` | `cli/nubi_cli/secrets_files.py`, `cli/nubi_cli/vcs_secrets.py` | The dotenv printer and parser are inverse exactly on clean entries; the whole CI pipeline returns the two maps exactly for clean upper-case entries; materialising twice changes nothing under an exact condition. |
| `SqlValues`, `Connectors`, `ConnectorSecrets` | `backend/scripts/classify_connectors.py` | The literal loop ends on every input and reads canonical lists back; a field goes to the secrets exactly when its name, in any letters, is one of fourteen or holds one of six words, never to a plan's configuration then, and the split of a row is lossless under an exact condition. |
| `TokenCache`, `TokenLife` | `embed/getToken.reference.js` | One mint at a time over every interleaving of callers, responses and `finally` callbacks, as many mints as calls that needed one, and a token that arrives is served exactly until the lead time before its expiry. |
| `ChartMerge`, `PercentStack`, `Grouping`, `GroupedBars`, `Quantiles` | `embed/widgets/chart-options.js` | Path-wise laws of the option merge, percent stacking in place, grouped bars, the five-number summary. |
| `Placeholders`, `Sample`, `SampleSeeds`, `SampleRuns`, `SampleLinks`, `SampleSafety`, `SampleOrgWide` | `backend/app/sample.py`, `backend/app/demo_bundle.py` | A seed adds exactly the rows that are missing, with the fixtures' contents; seeding is idempotent, removal exact, and every placeholder of a sample board has become the identifier of a live row over every run of possibly interrupted seeds and removals; seeds for a whole organisation are safe under an exact condition. |

`Text`, `PyText`, `Names` and `Wrappers` hold decimal numbers, Python string operations, sorted listings and the option type.

## Modelling choices

- Bytes of a PDF are characters below 256 (`PdfBuilder.IsBytes`); Latin-1 encoding is a function on characters.
- JSON, YAML and SHA-256 are parameters: loading inverts dumping through a text file (`ProjectFiles.Lawful`), a digest is
  a fold over bytes (`Ingest.Digest`), the JSON decoder of an SSE frame is a function (`Sse.Decoder`).
- Unicode lower- and upper-casing are parameters with the properties the proofs need. A JSON number is a decimal, a mantissa
  with an exponent.
- A file tree, a ledger and a row store are maps or sequences; clocks, new identifiers, short reads and iteration orders
  of dictionaries are arbitrary.
- Chart numbers are reals. Coordinates in PDF operators are a sign and a number of smallest units.
- `None` of an option type stands for a raised exception or an absent value.

## Where the code falls short of its promise

- Two data lines with a line of two or more carriage returns between them are one event or two, depending on where the
  stream is cut (`SseCuts.StraddledTextIsUnsafe`, `SseCuts.CuttingMattersExactly`).
- A CSV row without cells is read back as one empty cell (`Csv.ReadBackExactly`).
- `esc` raises for every text with an ellipsis U+2026, since its fold has three characters (`PdfText.EscapeFailsOnEllipsis`).
- A PDF whose last object starts at 10^10 or later has a cross-reference entry of the wrong width and is unreadable
  (`PdfDocument.PagesAreReadBack`).
- A query without an identifier comes back from the file tree with its slug as identifier, one without a name takes its
  spec's name, and a metric block is lost (`ProjectKeeps.QueryIdentityExactly`, `ProjectKeeps.PayloadExactly`).
- A literal with a doubled quote, as standard SQL writes it, is not read back (`SqlValues.StandardLiteralExactly`).
- An org-wide seed after an interrupted project seed can leave a board pointing at a removed query; it cannot exactly
  when nothing that a missing board refers to is found in a project (`SampleOrgWide.OrgWideSeedExactly`).
- Materialising again is not idempotent for a key with blanks around it or a value whose line breaks make new entries
  (`SecretsAgain.BlankKeyDoesNotSettle`, `SecretsAgain.MaterializeAgainExactly`).
- A secret inside an object that is no wrapper stays in a plan's configuration (`Connectors.NestedSecretStays`,
  `Connectors.NothingExposedExactly`); and a field such as `ssh_key` counts as public, since only `private_key` is looked
  for inside names where the comment in the code says `key` (`Connectors.SshKeyIsPublic`).
- Percent stacking stops at the length of the first series; later columns of longer series stay as they are
  (`PercentStack.StackedSums`).
- Grouped bars drop the earlier numbers of a repeated category and colour (`Grouping.BarsConserveExactly`).

## Model

| member | source | states |
|---|---|---|
| PdfText.Esc | backend/app/pdf.py:77-88 | the escaping loop computes the character-wise escaping, or fails |
| PdfText.EscapedIsReadBack | backend/app/pdf.py:68-88 | a literal-string reader started behind the opening parenthesis stops exactly at the closing one, whatever follows, and yields the folded text |
| PdfText.EscapedIsLatin1 | backend/app/pdf.py:77-88 | every character written lies between 32 and 255, so the Latin-1 encoding replaces nothing |
| PdfText.EscapeFailsOnEllipsis | backend/app/pdf.py:68-88 | escaping fails if and only if the text holds U+2026 |
| PdfText.Truncate | backend/app/pdf.py:91-98 | unchanged when it fits; otherwise the longest prefix that fits with its dots, or the dots alone |
| PdfBuilder.Pdf.constructor | backend/app/pdf.py:101-110 | a fresh builder has one empty page, the current operator list being that page's |
| PdfBuilder.Pdf.NewPage | backend/app/pdf.py:112-114 | adds one empty page and changes no other |
| PdfBuilder.Pdf.Text | backend/app/pdf.py:117-124 | appends one text operator to the last page only, or changes nothing when the text holds an ellipsis |
| PdfBuilder.Pdf.RectFill | backend/app/pdf.py:130-132 | appends one fill operator to the last page only |
| PdfBuilder.Pdf.Line | backend/app/pdf.py:134-140 | appends one stroke operator to the last page only |
| PdfBuilder.Pdf.ToBytes | backend/app/pdf.py:143-206 | the imperative serialiser writes, byte for byte, the file of header, printed objects, table and trailer for the pages' streams; every character is a byte |
| PdfBuilder.AddObjects | backend/app/pdf.py:146-188 | the object list built with pre-assigned numbers is the list in file order: each page and stream sits where its number says |
| PdfBuilder.WriteObjects | backend/app/pdf.py:190-197 | each recorded offset is the position of its object in the bytes |
| PdfBuilder.WriteFile | backend/app/pdf.py:190-206 | objects, fixed-width table, trailer and startxref in the layout that the reader is proved against |
| PdfSyntax.ParsePrint | backend/app/pdf.py:160-188 | the object parser inverts the object printer in front of any tail |
| PdfFile.ReadObject | backend/app/pdf.py:190-197 | at an object's offset the reader finds that object number and exactly its body, stream length included |
| PdfFile.ResolveOf | backend/app/pdf.py:190-206 | every reference resolves through the table to exactly the object written under that number |
| PdfFile.ReadDocumentOf | backend/app/pdf.py:198-206 | following startxref, the reader recovers the whole table and the trailer with Size one more than the objects, if and only if every offset has at most ten digits |
| PdfFile.LastOffsetDecides | backend/app/pdf.py:192-202 | all offsets fit their ten digits exactly when the last one does |
| PdfDocument.EveryObjectResolves | backend/app/pdf.py:146-188 | in the finished document every object number resolves to the object meant for it |
| PdfDocument.PageContentOf | backend/app/pdf.py:146-188 | every page's Contents leads to that page's own stream, with its exact bytes |
| PdfDocument.PagesAreReadBack | backend/app/pdf.py:143-206 | an independent reader recovers exactly the list of page contents when the last offset is below 10^10, and nothing otherwise |
| PdfDocument.TreeIsReadBack | backend/app/pdf.py:143-206 | the reader walks from startxref to the page tree with a kid for every page, under the same condition |
| PdfDocument.PageFontsOf | backend/app/pdf.py:146-188 | on every page the name F1 leads through the resources to the font Helvetica and F2 to Helvetica-Bold, both in WinAnsiEncoding |
| PdfDocument.PageBoxOf | backend/app/pdf.py:155-188 | the media box of every page is the upright A4 sheet |
| PdfContent.FixedIsRead | backend/app/pdf.py:121-140 | a formatted coordinate is a PDF number and is read as its exact value, sign and fraction included |
| PdfContent.GroupsAreRead | backend/app/pdf.py:117-140 | operations printed with single blanks perform exactly those operators with exactly those operands |
| PdfContent.OpIsRead | backend/app/pdf.py:117-140 | the line of a text, fill or stroke call performs its program: font, size, colour, position and folded text, or colour and rectangle, or width, colour and end points |
| PdfContent.LinesAreRead | backend/app/pdf.py:117-157 | a page's stream performs the programs of its drawing calls in order, and nothing else |
| PdfContent.LinesAreBytes | backend/app/pdf.py:117-157 | content streams are Latin-1 already, so encoding them changes nothing and their length is their byte count |
| PdfContent.DrawingIsReadBack | backend/app/pdf.py:117-206 | end to end: from the finished bytes the reader recovers the pages, and an interpreter performs on each page exactly what was drawn on it |
| PdfPaint.ProgramsPaint | backend/app/pdf.py:117-157 | painted with a graphics state, the programs of the drawing calls leave exactly the marks of the calls, in order, whatever the state before |
| PdfPaint.DrawingIsSeen | backend/app/pdf.py:101-206 | from the bytes of the file alone a painter sees one A4 sheet per page with each text in the typeface its `bold` asks for, at its size, colour and place, and each rectangle and line, in order and nothing else, if and only if the last offset is below 10^10 |
| Sse.ParseSseBuffer | embed/widgets/nubi-chat.js:177-199 | the parse loop yields the events of all complete frames of the normalised buffer and keeps the rest |
| Sse.CuttingDoesNotMatter | embed/widgets/nubi-chat.js:415-432 | without CR CR LF, every way of cutting the text gives the frames of one parse of the whole, flush included |
| SseCuts.StreamIsBelow | embed/widgets/nubi-chat.js:177-183 | whatever the cutting, the lines read are those of the text normalised once, up to carriage returns at their ends |
| SseCuts.SafeCarriesTheSame | embed/widgets/nubi-chat.js:177-199 | a text with no line of carriage returns alone between the data of a frame gives the same payloads for every cutting |
| SseCuts.SomeCuttingShows | embed/widgets/nubi-chat.js:177-432 | for any other text there is a cutting after which the chat element shows something else |
| SseCuts.CuttingMattersExactly | embed/widgets/nubi-chat.js:177-432 | for every decoder and every cutting the chat element ends up the same, if and only if no frame has a line of carriage returns alone with data on both sides |
| SseCuts.NoCrCrLfIsSafe | embed/widgets/nubi-chat.js:177-199 | without CR CR LF no frame has such a line, so every cutting is safe |
| SseCuts.StraddledTextIsUnsafe | embed/widgets/nubi-chat.js:177-199 | two data lines around a line of two carriage returns are such a text |
| Sse.NubiChat.HandleFrame | embed/widgets/nubi-chat.js:445-470 | one event changes the turn as the fold step says |
| Sse.NubiChat.FinalizeTurn | embed/widgets/nubi-chat.js:472-492 | finishing a turn announces the bubble's text once and fixes the identifiers |
| Sse.NubiChat.ConsumeStream | embed/widgets/nubi-chat.js:415-432 | the read loop leaves the state of handling the whole text's events in order, for every chunking without CR CR LF |
| Sse.BubbleIsTokens | embed/widgets/nubi-chat.js:445-470 | the bubble is the concatenation of the token frames |
| Sse.AnnouncedTextIsTokens | embed/widgets/nubi-chat.js:472-492 | each announced message is the concatenation of all token frames before it |
| Sse.NubiChat.Send | embed/widgets/nubi-chat.js:343-413 | a request carries the kept identifier; the reply, an HTTP error or a failed request leave the state that the turn of its events leaves |
| SseTurns.TurnExactly | embed/widgets/nubi-chat.js:445-492 | after any events the kept identifier is the last one a message event brought, the bubble holds the texts of all tokens, and chips, error and announcements are those of the events |
| SseTurns.DispatchesAreTold | embed/widgets/nubi-chat.js:472-492 | each message event announces its own identifier, or else the kept one, with all tokens before it, and a proposal follows exactly those that have a spec |
| SseTurns.ConversationGoesOn | embed/widgets/nubi-chat.js:343-492 | over any number of turns each request carries the last identifier that any turn brought, and a first request none |
| SseTurns.TurnStartsAfresh | embed/widgets/nubi-chat.js:360-413 | however the request goes, the bubble, the announcements and the error are those of this turn: nothing but the chips and the identifier is left over from the one before |
| SseTurns.ServerIsHeard | embed/widgets/nubi-chat.js:177-432 | for every list of frames of data and other lines, either line end and every cutting, the element hears each frame that has data once, with its data values joined |
| Csv.ToCsv | embed/widgets/csv.js:49-66 | the loop writes the header and the rows, joined by CRLF behind a byte-order mark |
| Csv.CsvIsReadBack | embed/widgets/csv.js:30-66 | an RFC 4180 parser returns every row, for all texts with commas, quotes and line breaks |
| Csv.ValuesAreReadBack | embed/widgets/csv.js:49-66 | behind the byte-order mark a reader finds the column names, then row by row the text of each column's field of an object, or of each cell of an array, empty for missing and null |
| Csv.ReadBackExactly | embed/widgets/csv.js:30-66 | header and rows come back unchanged if and only if every row has a cell |
| Csv.Injective | embed/widgets/csv.js:49-66 | tables with the same CSV have the same cell texts |
| Bridge.StepKeepsInv | cli/nubi_cli/bridge_agent.py:312-457 | every step of the session and of its heartbeat task keeps the protocol invariant |
| Bridge.NothingBeforeHandshakeOk | cli/nubi_cli/bridge_agent.py:312-342 | the handshake is sent first and once; anything else only after HANDSHAKE_OK |
| Bridge.NothingAfterReject | cli/nubi_cli/bridge_agent.py:344-358 | no frame is sent and none is due after AUTH_REJECT has been consumed |
| Bridge.RepliesAnswerClaims | cli/nubi_cli/bridge_agent.py:360-414 | a manifest is sent only if the frame consumed right after its claim was the grant for that task; an error only for a claim whose frame was no rejection |
| Bridge.ClaimIsAnswered | cli/nubi_cli/bridge_agent.py:360-414 | after a claim the next frame but heartbeats is consumed, and the one after that answers the claim with its own task and run |
| Bridge.EveryClaimHasOneReply | cli/nubi_cli/bridge_agent.py:360-442 | whenever the agent listens again every claim made has exactly one reply: one event behind it answers it with its own task and run, and any other reply comes after a later claim |
| BridgeRuns.LogIsBalanced | cli/nubi_cli/bridge_agent.py:344-457 | in every run the log holds one manifest per ingest that returned, one error per ingest that raised and per frame that refused a claim, one claim per task assigned, one heartbeat per wake-up, and the frames received in order |
| BridgeRuns.EndIsReported | cli/nubi_cli/bridge_agent.py:386-414 | the end of an ingest is reported under its own claim: a manifest for a result, an error for a failure |
| BridgeRuns.CanOpen | cli/nubi_cli/bridge_agent.py:312-358 | a session gets through its handshake to its receive loop, with its heartbeat scheduled |
| BridgeRuns.CanDoTask | cli/nubi_cli/bridge_agent.py:344-414 | a task assigned to a listening session can always be claimed, ingested once granted, and reported |
| BridgeRuns.StopIsHeeded | cli/nubi_cli/bridge_agent.py:344-358 | once stopped, the receive loop is not entered again |
| BridgeRuns.AtMostOneBeatAfterStop | cli/nubi_cli/bridge_agent.py:444-457 | after a stop at most the heartbeat that was being waited for is sent |
| Ingest.UploadFile | cli/nubi_cli/bridge_sources.py:91-111 | for any short reads the upload succeeds if and only if the grant names a target, the file can be read and the target takes it; the chunks are non-empty, at most the chunk size and concatenate to the file; size and incremental digest are the whole file's |
| Ingest.UrlExactly | cli/nubi_cli/bridge_sources.py:77-89 | a grant names a target by an object, by a text, or in the flat form where it has neither |
| Ingest.DigestConcat | cli/nubi_cli/bridge_agent.py:205-219 | feeding a digest in pieces gives the digest of the whole |
| Ingest.RunIngestTask | cli/nubi_cli/bridge_agent.py:227-274 | there is a manifest if and only if the listing is complete and every file can be uploaded: one entry per file, in order, with size and digest; the files are tried in order up to the first failure, and every handle opened for upload is closed |
| Migrate.DiscoverDistinct | database/migrate.py:81-100 | discovery lists no version twice, and the core listing is a prefix of the one with enterprise files |
| Migrate.DiscoverExactly | database/migrate.py:81-100 | without the flag exactly the core files are discovered, with it exactly those and the enterprise files under their prefix |
| Migrate.RunsAreSafe | database/migrate.py:103-149 | over every interleaving with crashes: no effect twice, ledger and effects agree, one runner in the critical section, and a finished run leaves nothing it discovered pending |
| Migrate.OnlyCommitsTakeEffect | database/migrate.py:125-149 | only a commit changes the database, adding together ledger row and effect of a version that is not in the ledger; every way out of a run gives up the lock |
| Migrate.RunsStayInOrder | database/migrate.py:114-149 | what is applied stays a prefix of the order all plans share |
| Migrate.OneTreeStaysInOrder | database/migrate.py:81-149 | the applied core set is always a prefix of the core order, the applied enterprise set one of the enterprise order, and an enterprise version is applied only after all core ones |
| MigrateRuns.OnlyCoreWithoutFlag | database/migrate.py:81-149 | where no runner asks for the enterprise layer whatever is applied is a core file, and otherwise a file of the tree |
| MigrateRuns.NeverStuck | database/migrate.py:103-149 | as long as anybody is connected somebody can go on without a failure |
| MigrateRuns.AloneFinishes | database/migrate.py:103-149 | a runner left alone applies what the ledger lacks of its plan, in order, and finishes |
| Names.LessExactly | database/migrate.py:81-100 | the order of sorted listings is code-point order: the strings agree up to a place where the first ends or has the smaller character |
| Dotenv.ParseDotenv | cli/nubi_cli/secrets_files.py:50-59 | the parse loop computes the map of the lines, later lines winning |
| Dotenv.LineExactly | cli/nubi_cli/secrets_files.py:50-59 | a line sets a key if and only if, stripped, it is no comment and has that key's name in front of its first equals sign; all other lines set nothing |
| Dotenv.LastLineDecides | cli/nubi_cli/secrets_files.py:50-59 | a file gives a key a value if and only if the last line that sets the key sets it to that value |
| Dotenv.WriteDotenv | cli/nubi_cli/secrets_files.py:68-76 | the writer emits the header, if there is one, and the entries in key order; nothing at all for neither |
| Dotenv.EntriesAreClean | cli/nubi_cli/secrets_files.py:50-65 | whatever a file holds, reading it gives clean entries only |
| Dotenv.WrittenIsReadBackExactly | cli/nubi_cli/secrets_files.py:50-76 | writing and reading returns the map if and only if every entry is one clean line |
| Secrets.Project.Materialize | cli/nubi_cli/secrets_files.py:91-119 | the environment's two parts are merged over the two files, and their sizes returned |
| Secrets.MaterializedExactly | cli/nubi_cli/secrets_files.py:91-119 | each file then holds its old entries overlaid by its own part and nothing of the other, if and only if the new entries are clean |
| Secrets.VariableArrives | cli/nubi_cli/secrets_files.py:91-119 | a variable with one of the two prefixes arrives in the file of that prefix under the rest of its name, and whatever else the file holds it held before |
| SecretsAgain.MaterializeAgainExactly | cli/nubi_cli/secrets_files.py:50-119 | a second materialise leaves both files byte for byte as they are, if and only if what reads back under keys other than the new ones was there before |
| SecretsAgain.FreshExactly | cli/nubi_cli/secrets_files.py:50-119 | into an empty file that is so if and only if every line of a new entry reads as nothing or as one of the new keys |
| SecretsAgain.HarmlessIsEnough | cli/nubi_cli/secrets_files.py:50-119 | over any file it is so when every line of a new entry reads as nothing, as a new key, or as an old entry unchanged |
| SecretsAgain.OneLineValuesSettle | cli/nubi_cli/secrets_files.py:91-119 | clean keys with values on one line settle at once, blanks at the end of a value included |
| SecretsAgain.BlankKeyDoesNotSettle | cli/nubi_cli/secrets_files.py:91-119 | a key with a blank in front does not |
| Secrets.PrefixedNames | cli/nubi_cli/vcs_secrets.py:76-87 | the CI map covers both maps under their prefixes, and holds nothing else, for any iteration order |
| Secrets.PartComesFrom | cli/nubi_cli/vcs_secrets.py:76-87 | an entry under one prefix comes only from the map of that prefix |
| Secrets.PartIsMapExactly | cli/nubi_cli/vcs_secrets.py:76-87 | taking the part of one prefix gives the map back if and only if its keys are upper case |
| Secrets.PipelineExactly | cli/nubi_cli/secrets_files.py:50-119 | printing to CI keys and materialising into an empty project returns each map if and only if its entries are clean and its keys upper case |
| Portable.PayloadIsStable | backend/app/portability.py:474-505 | a payload stored as a row, exported and taken in again is the same payload, for dashboards, queries and connectors |
| PortableRows.RowComesBackExactly | backend/app/portability.py:97-241 | a stored row exported and taken in again has its own name and configuration if and only if it has a name and the form that saving gives it, for a connector: if and only if it holds no secret |
| PortableRows.ConnectorsLeaveSecrets | backend/app/portability.py:97-505 | no secret of a stored connector is in its envelope and none of an envelope in the payload; all other keys are kept with their values |
| PortableRows.EnvelopeNamesRow | backend/app/portability.py:474-505 | an envelope names its row, and its identifier and project as text where the row has them, and nothing else |
| ProjectFiles.SlugIsSafe | cli/nubi_cli/project.py:64-67 | a slug is never empty and holds only lower-case letters, digits and hyphens |
| ProjectFiles.SlugExactly | cli/nubi_cli/project.py:64-67 | a slug is the words of the lower-cased name with single hyphens in between, so it keeps all its letters and digits in order; it falls back to "resource" when there are none |
| ProjectFiles.Checkout.WriteFiles | cli/nubi_cli/project.py:329-337 | the write loop overlays the tree with the items in order |
| ProjectFiles.Checkout.WriteAll | cli/nubi_cli/main.py:1261-1269 | the loop over the pulled envelopes leaves the tree of all their files, later ones winning |
| ProjectFiles.Checkout.ReadFolder | cli/nubi_cli/project.py:470-491 | the read loop gives the folder's envelopes in path order, or fails with the first that fails |
| ProjectTrip.RestemPath | cli/nubi_cli/project.py:286-288 | renaming the stem replaces exactly the identifier in the path, whatever the identifier is |
| ProjectTrip.EnvelopeFiles | cli/nubi_cli/project.py:198-283 | every envelope writes exactly the files of its slug |
| ProjectTrip.FileNames | cli/nubi_cli/project.py:198-283 | with or without an identifier a connector is one YAML file, a dashboard one JSON file and a query two or three files, in the folder of the kind and named by the slug |
| ProjectTrip.TreePaths | cli/nubi_cli/project.py:329-337 | a path is in the tree if and only if some envelope writes it, and then with that envelope's text |
| ProjectTrip.ReadsBack | cli/nubi_cli/project.py:354-415 | from a tree that holds an envelope's files under its slug exactly that envelope is read, sidecars included |
| ProjectTrip.NothingLostExactly | cli/nubi_cli/project.py:470-491 | reading a written tree never fails, and no envelope of a kind is lost if and only if no two slugs clash |
| ProjectTrip.TreeIsReadBack | cli/nubi_cli/project.py:470-491 | with distinct slugs the tree gives each envelope of the kind, and nothing else |
| ProjectKeeps.SchemaKeptExactly | cli/nubi_cli/project.py:210-218 | normalising the declared columns changes nothing if and only if each is a named, typed text pair; normalising twice is normalising once |
| ProjectKeeps.IdentityIsKept | cli/nubi_cli/project.py:264-281 | dashboards and connectors keep name, identifier and spec |
| ProjectKeeps.QueryIdentityExactly | cli/nubi_cli/project.py:249-262 | a query keeps its name if and only if it has one or its spec offers none, and its identifier if and only if it has one |
| ProjectKeeps.PayloadExactly | backend/app/portability.py:138-241 | the payload after the trip is the original one if and only if the name is text and, for a query, the SQL is text without CR, the declared columns are normal and there is no metric block |
| ProjectKeeps.BackTwiceExactly | cli/nubi_cli/project.py:378-415 | a second trip changes nothing if and only if a borrowed name is text |
| ProjectKeeps.SecondPullExactly | cli/nubi_cli/project.py:222-283 | writing what came back gives the same files byte for byte if and only if no name is borrowed and the SQL has no CR |
| ProjectKeeps.PullThenPush | cli/nubi_cli/project.py:222-491 | with distinct slugs, what is read from the written tree is each envelope's trip and nothing else, and its payload is the original one if and only if the envelope survives |
| SqlValues.ParseValues | backend/scripts/classify_connectors.py:476-497 | the value loop ends on every input and computes the values of the text |
| SqlValues.BodyIsGreedy | backend/scripts/classify_connectors.py:448 | backtracking finds nothing else: a quoted body followed by a quote is the greedy one |
| SqlValues.TwoReplacesAreOnePass | backend/scripts/classify_connectors.py:482-484 | on every text the pattern accepts, the two replacements do what one decoding pass does |
| SqlValues.EscapeIsUndone | backend/scripts/classify_connectors.py:482-484 | backslash escaping is accepted and undone for all strings |
| SqlValues.ListIsReadBack | backend/scripts/classify_connectors.py:476-497 | a canonical list of naturals, decimals, NULLs, escaped strings and comma-free expressions is read back element by element |
| SqlValues.ExpressionIsOneNullExactly | backend/scripts/classify_connectors.py:490-497 | an unknown expression becomes one null if and only if it holds no comma |
| SqlValues.StandardLiteralExactly | backend/scripts/classify_connectors.py:448-497 | a literal in standard SQL spelling is read back as its string if and only if it has no quote and every backslash is followed by an ordinary character |
| Connectors.Flatten | backend/scripts/classify_connectors.py:159-194 | the two merge loops compute the flat row |
| Connectors.TopLevelWins | backend/scripts/classify_connectors.py:159-194 | top-level fields win over nested ones, and among fields of one canonical name the last |
| Connectors.FlatExactly | backend/scripts/classify_connectors.py:159-194 | under each name the flat row holds the last top-level field that goes by it, else the last of the last wrapper that has one, else nothing |
| Connectors.ExtractSecretKeys | backend/scripts/classify_connectors.py:309-322 | the loop finds exactly the names in the table of secret fields or with a suspicious part, lower-cased, sorted |
| Connectors.SplitRow | backend/scripts/classify_connectors.py:329-351 | the split loop puts every field but the wrappers on its side |
| Connectors.RenamingKeepsSecrets | backend/scripts/classify_connectors.py:84-142 | no alias turns a secret name into a public one |
| ConnectorSecrets.SecretExactly | backend/scripts/classify_connectors.py:309-322 | an ASCII name counts as a secret if and only if, in any letters, it is one of the fourteen names or holds one of the six words |
| ConnectorSecrets.WordsAreSecret | backend/scripts/classify_connectors.py:159-397 | a field with an ASCII name that holds one of the six words, in any letters, is never in the configuration and always among the secrets, at the top or in a wrapper |
| ConnectorSecrets.NamesAreSecret | backend/scripts/classify_connectors.py:159-397 | the same for each of the fourteen names |
| ConnectorSecrets.OthersArePublic | backend/scripts/classify_connectors.py:159-397 | any other field, by its canonical name, is in the configuration and not among the secrets, unless that name is a wrapper's |
| ConnectorSecrets.SpellingDoesNotMatter | backend/scripts/classify_connectors.py:84-194 | a row with a legacy spelling of a field is planned as one with today's |
| Connectors.ConfigurationIsPublic | backend/scripts/classify_connectors.py:159-397 | for any raw row, whatever a plan's configuration holds but the network mode stems from a field neither of whose names, own and canonical, is a secret's |
| Connectors.SecretsAreKeptApart | backend/scripts/classify_connectors.py:159-397 | a field with a secret name, own or canonical, is never in the configuration, and among the secrets unless its canonical name is a wrapper's |
| Connectors.NothingExposedExactly | backend/scripts/classify_connectors.py:159-397 | a configuration holds no secret at any depth if and only if no public field of the row is itself an object that does |
| Connectors.SshKeyIsPublic | backend/scripts/classify_connectors.py:309-322 | a name with `key` in it but not `private_key` is not found |
| Connectors.PlanIsLosslessExactly | backend/scripts/classify_connectors.py:329-397 | both sides are the flat row if and only if it holds no wrapper and its own network mode is the planned one |
| TokenCache.TokenSource.GetToken | embed/getToken.reference.js:208-225 | serves the cache, joins the request in flight, or starts one |
| TokenCache.TokenSource.FinishMint | embed/getToken.reference.js:151-195 | token and expiry are stored together on success; on failure the cache is untouched |
| TokenCache.TokenSource.ClearInflight | embed/getToken.reference.js:220-222 | the callback clears the request in flight and nothing else |
| TokenCache.StepKeepsInv | embed/getToken.reference.js:99-228 | every turn of the event loop keeps the invariant |
| TokenCache.RunsAreSafe | embed/getToken.reference.js:99-228 | over every interleaving: at most one mint outstanding, cached token and expiry from the newest fulfilled mint, cached tokens served only with more than the lead time left, settled calls with their mint's outcome |
| TokenCache.NobodyIsStuck | embed/getToken.reference.js:208-225 | every waiting call's mint can still answer, be cleared or hand over |
| TokenCache.MintsAreNeeded | embed/getToken.reference.js:99-228 | over every run there are exactly as many mints as calls that came when every earlier mint was over and the newest token fetched was missing or about to expire; each mint has a call waiting for it |
| TokenCache.JoinersShare | embed/getToken.reference.js:214-217 | a call waiting for a mint settles with that mint's outcome, whatever happens in between |
| TokenCache.FailureFreesTheNextCall | embed/getToken.reference.js:151-225 | a failed mint leaves the cache alone and the next call free to mint |
| TokenCache.FreshCacheMintsNothing | embed/getToken.reference.js:139-143 | while the cached token stays fresh no run mints anything |
| TokenCache.ServedTokensAreJwts | embed/getToken.reference.js:186-192 | every token served from the cache passed the shape check and was served by its own expiry |
| TokenLife.FulfilledExactly | embed/getToken.reference.js:151-195 | a mint is fulfilled with a text if and only if the response carries it, as JSON or plain, and it has three parts with a dot between each two |
| TokenLife.ServedUntilLead | embed/getToken.reference.js:99-228 | a token that arrives is served to later calls without another mint if and only if it has more than the lead time left then; otherwise the call mints again |
| TokenLife.WaitersGetTheToken | embed/getToken.reference.js:208-225 | every call that waits for a mint settles with the token that arrives for it |
| ChartMerge.MergeAt | embed/widgets/chart-options.js:207-216 | what the merge reads at any path: the source's value, the merged objects, the target where the source lacks the key, nothing where the source's value is in the way |
| ChartMerge.MergeSelf | embed/widgets/chart-options.js:207-216 | merging a tree with itself adds nothing |
| ChartMerge.MergeTwice | embed/widgets/chart-options.js:207-216 | merging the same source twice adds nothing |
| ChartMerge.ExplicitWins | embed/widgets/chart-options.js:1132-1136 | a value in the explicit block is the final one |
| ChartMerge.PassthroughIsNext | embed/widgets/chart-options.js:1132-1136 | where the explicit block is silent the passthrough decides, and where both are silent the computed option |
| ChartMerge.InterpretedKeysDoNotPass | embed/widgets/chart-options.js:1076-1082 | below an interpreted key only the computed option and the explicit block count |
| ChartMerge.BuildOptionAt | embed/widgets/chart-options.js:1070-1136 | with the interpreted keys of the source: who decides a path the explicit block is silent about |
| ChartMerge.InterpretedSettingsDoNotLeak | embed/widgets/chart-options.js:1070-1136 | configurations that differ in interpreted keys only, other than the explicit block, give the same option for the same computed part |
| PercentStack.ApplyPercentStack | embed/widgets/chart-options.js:522-531 | the in-place loops leave the stacked table, arrays growing where they are short |
| PercentStack.StackedAt | embed/widgets/chart-options.js:522-531 | columns within the first series become their percentages, all others are untouched |
| PercentStack.PercentMonotone | embed/widgets/chart-options.js:522-531 | percentages of a positive total keep the order of the values |
| PercentStack.StackedSums | embed/widgets/chart-options.js:522-531 | within the length of the first series a column with a total adds up to 100 within 0.005 per series and non-negative values end in 0 to 100; all other columns stay |
| PercentStack.ShareIsNearest | embed/widgets/chart-options.js:522-531 | each number becomes its own share of its column's total in percent, to the nearest hundredth |
| Grouping.GroupByCategory | embed/widgets/chart-options.js:189-200 | the loop groups the rows by colour in order of appearance |
| GroupedBars.GroupsExactly | embed/widgets/chart-options.js:189-200 | from the three arrays: one group per colour in the order of first appearance, each with exactly the categories and numbers of its entries, as far as both arrays go |
| Grouping.OneGroupPerColour | embed/widgets/chart-options.js:189-200 | every colour has one group |
| Grouping.BarIsLastValue | embed/widgets/chart-options.js:491-504 | a grouped bar is the last number of its category and colour, or 0 |
| GroupedBars.BarsExactly | embed/widgets/chart-options.js:491-504 | from the three arrays: a bar is the number of the last entry with its category and colour, or 0 |
| Grouping.NothingElseIsLost | embed/widgets/chart-options.js:491-504 | the bars of a category and its overwritten numbers add up to its rows |
| Grouping.BarsConserveExactly | embed/widgets/chart-options.js:491-504 | bars conserve a category's total if and only if the overwritten numbers add up to nothing |
| Grouping.UniquePairsConserve | embed/widgets/chart-options.js:491-504 | with one row per category and colour the total is conserved |
| Quantiles.BetweenNeighbours | embed/widgets/chart-options.js:909-913 | a quantile lies between the order statistics around its position |
| Quantiles.QuantileMonotone | embed/widgets/chart-options.js:909-913 | the interpolated quantile never falls as the fraction grows |
| Quantiles.QuantileSplits | embed/widgets/chart-options.js:909-913 | more than a fraction p of the steps lie at or below the p-quantile, and more than the rest at or above it |
| Quantiles.SummaryInOrder | embed/widgets/chart-options.js:907-915 | the summary is non-decreasing and its ends are least and greatest |
| Quantiles.SummaryExactly | embed/widgets/chart-options.js:907-915 | for a sample put in order in any way, each of the five numbers is the one none, one, two, three or four quarters of the steps from the least |
| Quantiles.QuartilesSplit | embed/widgets/chart-options.js:914 | more than one, two, three quarters of the steps lie at or below the second, third, fourth number, and more than the rest at or above it |
| Quantiles.SummaryIgnoresOrder | embed/widgets/chart-options.js:907-908 | the summary depends on the numbers, not on their order |
| Placeholders.ReferencedQueryKeys | backend/app/demo_bundle.py:81-98 | the collecting loop lists, in order and once each, exactly the keys that some board refers to |
| Placeholders.ResolveNeedsReferencesOnly | backend/app/demo_bundle.py:81-113 | what a tree resolves to depends on its collected keys alone, so the collector covers the substituter |
| Placeholders.NothingLeftToResolve | backend/app/demo_bundle.py:101-113 | no placeholder is left after substitution |
| Sample.FindSample | backend/app/sample.py:62-77 | the first row of the scope with that sample identifier |
| SampleSeeds.FoundIsFirst | backend/app/sample.py:62-77 | the row found is the first one of the organisation, and of the project if one is given, tagged as a sample under the identifier; none is found only where there is none |
| Sample.Repo.SeedSampleBundle | backend/app/sample.py:108-193 | the seeding loops leave the store and identifiers of the step-by-step seed |
| SampleSeeds.DatastoreExactly | backend/app/sample.py:139-146 | the scope has one datastore for the bundle afterwards: the one it had, or one new row with the given configuration; the queries read from it |
| SampleSeeds.QueriesExactly | backend/app/sample.py:148-178 | every query that a board refers to or that carries a metric is there afterwards; what was added are rows of such queries with their name, statement, parameters and metric, each under an identifier that was missing |
| SampleSeeds.BoardsExactly | backend/app/sample.py:183-193 | every board is there afterwards under the identifier returned for it; what was added are boards with their names and placeholders filled from the scope, each under an identifier that was missing |
| SampleSeeds.CreatedExactly | backend/app/sample.py:137-193 | as many rows are reported as created as were added to the three tables |
| Sample.RemoveSamples | backend/app/sample.py:399-410 | the deletion loop removes all listed rows and counts them |
| Sample.Repo.RemoveSampleBundle | backend/app/sample.py:390-411 | the three tables lose their sample rows of the scope, with the counts returned |
| Sample.RemoveIsExact | backend/app/sample.py:390-411 | removal deletes exactly the sample rows of the scope and keeps all others in order |
| SampleSeeds.RemovedExactly | backend/app/sample.py:390-411 | a row is gone if and only if it is tagged as a sample of that organisation, and of the project if one is given; as many rows go as are counted |
| SampleSeeds.RemovalClears | backend/app/sample.py:390-411 | a removal that is not cut short takes exactly the sample rows of the scope from all three tables |
| SampleRuns.ReseedIsStable | backend/app/sample.py:80-193 | seeding again creates no row and returns the same identifiers |
| SampleLinks.FilledExactly | backend/app/demo_bundle.py:81-113 | a tree is filled by the substituter, at every depth, if and only if each key found by the collector is mapped to what it stands for |
| SampleLinks.IdMapHolds | backend/app/sample.py:108-193 | every key a board refers to is in the map its seed resolves it by, with the identifier of the row found, unless no fixture knows the key |
| SampleSafety.ProjectSeedsAreSafe | backend/app/sample.py:62-77 | a seed into a project finds rows of that project only |
| SampleSafety.StepKeepsInv | backend/app/sample.py:108-411 | seeds into a project, safe seeds for an organisation and removals, cut short anywhere, and users adding or dropping rows that are no samples, keep every sample board filled |
| SampleSafety.BoardsPointAtLiveRows | backend/app/sample.py:108-411 | in every run each sample board is a fixture board in which every placeholder, at any depth, has become the identifier of a row present in the board's own project, or nothing where no fixture knows the key |
| SampleSafety.RemoveUndoesSeed | backend/app/sample.py:108-411 | seeding and then removing leaves what removing alone would have left |
| SampleOrgWide.OrgWideSeedExactly | backend/app/sample.py:62-411 | a seed for the whole organisation leaves no removal of a project's bundle that strands a board, if and only if nothing that a board yet to be created refers to is found in a project |
| SampleOrgWide.OrgWideSeedCanDangle | backend/app/sample.py:62-411 | a concrete run ends with a board pointing at a removed query |

## Left out

- Printing doubles with two or three decimals: PDF numbers carry a sign and their smallest units, so rounding of a double to them is not modelled; nor are non-finite numbers.
- PDF: right-aligned text and the table of character widths (a width function is a parameter of `TextWidth` and `Truncate`), report layout on top of the builder.
- PDF: the content interpreter and the painter cover the operators the builder prints; arrays, inline images and hexadecimal strings in content streams are not read.
- SSE: a lone CR does not end a line in this parser, unlike section 9.2 of the WHATWG HTML Standard; the model follows the code. UTF-8 decoding and the DOM are not modelled.
- CSV: cells are null or their string form; `String(value)` itself is not modelled.
- Bridge: the WebSocket, timeouts and reconnecting; a task's identifier that arrives as a number never matches its grant because the agent compares it with text, and the model keeps that.
- Ingest: a staging target is a number of bytes it takes and an answer; the hash function is a fold with an arbitrary step.
- Migrate: migrations that commit inside their own SQL, and any writer other than the runners.
- Files as code: flows (their serializers are not part of this model), the manifest and project files, the backend serializers used when importable, leftover files of an earlier pull; Windows path rules.
- Files as code: JSON and YAML texts are inverse to their loaders by assumption; ordering of keys inside a document is not modelled.
- Secrets: `upsert_dotenv` beyond the merge it shares with materialise, encryption and the CI provider's own rules for names.
- SqlValues: the outer INSERT pattern, signs, decimal digits other than ASCII, and the conversion of a decimal text to a double.
- Connectors: `classify`, network ranges and redaction; of lower-casing only what it does to ASCII names is used.
- TokenCache: base64 and JSON decoding of the expiry (a function of the token), and the network.
- ChartMerge: property names inherited from prototypes; arrays and scalars are leaves.
- PercentStack, Quantiles: binary rounding of doubles; infinities and NaN other than as "not a number".
- Grouping: primary values other than category names; line, scatter and waterfall charts.
- Sample: flows, watches, jobs and environment promotion; concurrent seeds of one project; users changing or dropping single sample rows.
- User interface, routing, rendering, HTTP, database and query engine code: nothing in them is modelled.
