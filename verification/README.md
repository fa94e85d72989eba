# Pergamon, modelled and proved in Dafny

Pergamon is a local-first reading library. This project models the dense, mostly I/O-free
algorithms inside it and proves what they keep, undo and mean. Code that works by changing
things step by step is written as methods and classes, each proved against a specification
function; the theorems are lemmas about those functions, for all inputs, runs or
interleavings.

`dafny verify dfyconfig.toml` checks the whole project.

## What is modelled

| files | part of the system |
|---|---|
| `Opml.dfy`, `OpmlProofs.dfy`, `OpmlReading.dfy` | the OPML reader with its stack of open folders, the recursive printer, the counter; conservation and round trip; title, attributes and errors |
| `Library.dfy`, `LibraryProofs.dfy` | building the tree to export from parent-linked folders, importing a tree back; what an import stores, importing twice, export and restore |
| `KeyFile.dfy`, `KeyFileProtocol.dfy` | the encrypted key file: one writer's update, and any number of writers step by step with crashes |
| `Wire.dfy`, `Records.dfy`, `AccountId.dfy` | the forward-only cursor and the canonical encodings of device records, attestations, key packages and account handles |
| `Envelope.dfy` | header bytes, signing bytes, key derivation, sealing and opening events |
| `SmartFilter.dfy`, `SmartFilterProofs.dfy`, `SmartFilterReprint.dfy`, `SmartFilterAccepts.dfy` | the filter language: tokenizer, parser, printer; when a printed filter parses back; its grammar |
| `Rules.dfy`, `RulesMeaning.dfy` | the rule engine, whose tag context grows while it runs; what running rules means |
| `Fsrs.dfy`, `FsrsNumbers.dfy` | the FSRS-5 scheduler over exact reals; what its numbers amount to |
| `Slug.dfy`, `Template.dfy`, `Markdown.dfy` | slugs, file-name templates, the export plan with its collision rule and its links |
| `Kindle.dfy` | the clippings importer and its cache |
| `OperatorSessions.dfy` | the expiring table of form sessions |
| `Onboarding.dfy`, `OnboardingFlows.dfy` | the six account commands as sequences of writes that may stop anywhere; what admits them and where they end |
| `Text.dfy`, `Wrappers.dfy` | shared string operations, option and result types |

Ideal primitives stand for cryptography: a derived key is the pair of its parent and its
label, a ciphertext remembers key, associated data, nonce and plaintext, a signature
remembers signer and message, a digest remembers what it was taken of. The scheduler's
`exp` and `pow` are parameters with the laws `Lawful` lists (`exp` turns sums into products,
grows and lies above its tangent; `pow` is positive, grows or falls with its base as the
exponent's sign says, lies below its tangent for exponents up to one, and is what it should
be at one and at the inverse square root). Clocks, random draws, relay answers and
faults are parameters of the step they enter.

## What the proofs found

- Importing a file a second time leaves every table as it was, but reports every folder
  that was never edited as created (`ReimportReportsFolders`, `ReimportMisreports`):
  "created" is read off equal creation and update times.
- A key file without entries admits any passphrase (`EmptyFileAdmitsAnyone`). In every run
  where nobody opens an emptied file with a foreign passphrase, all commits and all entries
  carry one key, and whoever is let in can read (`OnlyOnePassphrase`, `ReadersSeeLastPublished`).
- Before the key file exists, an edit whose call failed stays in the writer's view and is
  published by its next successful call; from the second rename on this cannot happen
  (`RenameCarries`, `FailedFirstEditCanLeak`). An update that reports a failed directory
  flush is already in the file.
- A key package with nothing wrapped in it can be written but not read (`EmptyPackageRefused`).
- A quoted filter value is printed without its quotes, so its printed form may not parse
  (`QuotedValueNotReprinted`). For queries with no quote right behind a colon printing and
  parsing are inverse (`PrintParse`); `ReprintsExactly` says exactly when a filter read from
  any query survives, and `CalmSurvives` that a value such as `it's` does unless it holds
  white space.
- Below a limit of eight the fallback `untitled` breaks a slug's length bound (`SlugFits`),
  and with it idempotence (`SlugIdempotent`); a limit of zero makes empty slugs (`SlugIsNormal`).
- An item created within the first second after midnight, with a fraction in its time stamp,
  counts as created before that day: its stamp sorts in front of midnight's (`FirstSecondMissed`,
  `SinceExactly`).
- At the top of the scale `Again` lowers difficulty (`AgainCanLowerDifficulty`; exactly where,
  says `AgainRaisesExactly`). That concerns only memory the scheduler did not produce: after
  every review history a lapse raises difficulty (`LapseRaisesDifficulty`).
- The Kindle highlight key does not mark where the location ends, so two different
  highlights of a book can share a key (`DifferentHighlightsOneKey`, `KeyIgnoresLocationEnd`);
  the second one is stored exactly when the keys differ (`SecondStoredExactly`). A dry run may announce more highlights
  than the import creates; exactly when is `ForecastIsUpperBound`.
- A bootstrap that stops between storing the root key and recording its intent cannot be run
  again; anywhere else it can (`BootstrapAgain`). The device can still be attached
  (`AttachAfterStop`).
- A joining login that stops between its intent and its keys lets later enrollments put
  one account id over another (`SplitLoginLosesId`). An enrollment made without a pending
  join of its account cannot be accepted, because the id it stored counts as an existing
  account (`PlainEnrollCannotAccept`); when an accept does work is `AcceptAfterEnroll`.

## Model

| member | source | states |
|---|---|---|
| Opml.ParseOpml | crates/pergamon-feed/src/opml.rs:76-171 | the reading loop over its flags, stack and root list is the step-by-step run the theorems are about, errors included |
| Opml.PushOutline | crates/pergamon-feed/src/opml.rs:176-183 | a finished outline joins the innermost open folder, or the root list when none is open |
| Opml.ParseOutlineAttrs | crates/pergamon-feed/src/opml.rs:185-226 | the attribute loop reads every known attribute, refuses an undecodable one, and falls back from empty text to the title |
| Opml.GenerateOpml | crates/pergamon-feed/src/opml.rs:238-290 | the written document is the printed form the round-trip theorems read back |
| Opml.WriteOutline | crates/pergamon-feed/src/opml.rs:296-331 | the recursive writer emits one empty tag for a leaf, and a start and an end tag around the children otherwise |
| Opml.CountOutlines | crates/pergamon-feed/src/opml.rs:339-357 | feeds and folders counted are those of the outlines in document order, each once |
| OpmlProofs.StepConserves | crates/pergamon-feed/src/opml.rs:94-169 | on every reachable state each event adds exactly the outline it opens, at the end of the document order, and loses none |
| OpmlProofs.RunConserves | crates/pergamon-feed/src/opml.rs:94-169 | for every event stream the open frames and the root list together spell the outlines opened so far, in order |
| OpmlProofs.NestingEmptiesTheStack | crates/pergamon-feed/src/opml.rs:94-182 | a well-nested stream ends with an empty stack, even when feeds have end tags of their own |
| OpmlProofs.ParseConservesOutlines | crates/pergamon-feed/src/opml.rs:94-182 | no outline of a well-nested body is lost, duplicated or reordered |
| OpmlProofs.ParsedFeedsAreLeaves | crates/pergamon-feed/src/opml.rs:100-138 | a parsed feed never has children, whatever the stream |
| OpmlProofs.CountAfterParse | crates/pergamon-feed/src/opml.rs:339-357 | the counter's totals equal the feeds and folders opened in the stream |
| OpmlProofs.AttributesRoundTrip | crates/pergamon-feed/src/opml.rs:185-226 | reading an outline's printed attributes gives the outline up to the code's own normalisation |
| OpmlProofs.ForestRoundTrip | crates/pergamon-feed/src/opml.rs:296-331 | in any state of the body, reading a printed forest appends its normal form to the open frame and goes on |
| OpmlProofs.RoundTrip | crates/pergamon-feed/src/opml.rs:76-331 | printing and reading back gives the normal form of the forest if and only if no feed has children |
| OpmlProofs.PrintedOutlinesSurvive | crates/pergamon-feed/src/opml.rs:76-331 | even for feeds with children every outline survives the trip, in order; only nesting can flatten |
| OpmlProofs.LayoutIgnored | crates/pergamon-feed/src/opml.rs:140-165 | text outside the title can be inserted or removed anywhere without changing the result |
| OpmlProofs.ReexportStable | crates/pergamon-feed/src/opml.rs:76-331 | whatever was imported, exporting it and reading the export gives its normal form |
| OpmlProofs.NormalIdempotent | crates/pergamon-feed/src/opml.rs:296-331 | a second trip through a file changes nothing more |
| OpmlReading.ParsedExactly | crates/pergamon-feed/src/opml.rs:76-171 | a stream is accepted if and only if none of its events is faulty where it stands, and its title is the text inside the title element, trimmed, however it was split and spelled |
| OpmlReading.FailsAtFirstFault | crates/pergamon-feed/src/opml.rs:100-166 | the first malformed event, undecodable attribute of a body outline, or undecodable text of the title names the error |
| OpmlReading.TitleInPieces | crates/pergamon-feed/src/opml.rs:78-160 | a title arriving as text, numbered and named characters in any mixture is the pieces in order, with nothing lost at the seams |
| OpmlReading.AttributesGive | crates/pergamon-feed/src/opml.rs:185-226 | of each known attribute the last value counts, empty text falls back to the title, one undecodable attribute spoils the outline |
| Library.TrailFits | crates/pergamon-cli/src/main.rs:2751-2792 | a chain of folders down from a root never exceeds the number of folders, so building the tree ends even when other parents form cycles |
| Library.BuildOpmlTree | crates/pergamon-cli/src/main.rs:2723-2750 | the loop over root folders and unfiled feeds builds the specified tree |
| Library.BuildFolderOutline | crates/pergamon-cli/src/main.rs:2751-2792 | the recursive loop builds a folder's outline: child folders first, then its feeds |
| Library.Importer.ImportOutlines | crates/pergamon-cli/src/main.rs:1781-1903 | the importing loop leaves tables and counters as the specified import does |
| Library.Importer.GetOrCreateFolder | crates/pergamon-cli/src/main.rs:1884-1903 | a folder is found among its siblings without regard to ASCII case, or created |
| LibraryProofs.AtInjective | crates/pergamon-storage/src/db.rs:519-546 | a folder path, read without regard to case, names at most one folder |
| LibraryProofs.Resolves | crates/pergamon-cli/src/main.rs:1781-1903 | every feed of a forest is filed in the folder its position names, nameless folders passed through |
| LibraryProofs.Resettles | crates/pergamon-cli/src/main.rs:1781-1903 | importing a forest into any later library creates no folder and resolves each feed as before |
| LibraryProofs.ImportSplits | crates/pergamon-cli/src/main.rs:1781-1903 | the interleaved import is the same as making all folders first and then filing all feeds |
| LibraryProofs.ImportStores | crates/pergamon-cli/src/main.rs:1781-1903 | for every valid library, forest and URL: what is stored under the URL afterwards, and that the library stays valid |
| LibraryProofs.ImportedUrl | crates/pergamon-cli/src/main.rs:1781-1903 | a URL not listed is untouched; a new one takes title, or without one text, and site from where it is listed first; either way it is filed where it is listed last |
| LibraryProofs.ImportCountsFeeds | crates/pergamon-cli/src/main.rs:1781-1903 | added, existing and moved feeds add up to the feeds listed, and the library grows by those added |
| LibraryProofs.ImportTwice | crates/pergamon-cli/src/main.rs:1781-1903 | importing any forest twice leaves all tables as after the first time, adds nothing, and moves nothing if and only if no URL is listed under two paths |
| LibraryProofs.FolderCounts | crates/pergamon-cli/src/main.rs:1781-1903 | folders reported as created are exactly the entered ones that were never edited |
| LibraryProofs.ReimportReportsFolders | crates/pergamon-cli/src/main.rs:1855-1875 | a repeated import creates no folder, but reports none as created if and only if every folder entered was edited since |
| LibraryProofs.ReimportMisreports | crates/pergamon-cli/src/main.rs:1855-1875 | a concrete file whose one folder is reported as created both times |
| LibraryProofs.TreeListsEachFeedOnce | crates/pergamon-cli/src/main.rs:2723-2792 | the exported tree lists exactly the feeds that hang from the root, each once, at its folder's path |
| LibraryProofs.TreeInOrder | crates/pergamon-cli/src/main.rs:2723-2750 | the exported tree has the root folders in table order and behind them the unfiled feeds in theirs |
| LibraryProofs.FolderInOrder | crates/pergamon-cli/src/main.rs:2751-2792 | so has every folder in it |
| LibraryProofs.TreeSurvivesFile | crates/pergamon-cli/src/main.rs:2723-2792 | the exported tree comes back unchanged from the file written from it |
| LibraryProofs.KeepsSpelling | crates/pergamon-cli/src/main.rs:1781-1903 | importing an exported forest only creates folders spelled as in the library it came from |
| LibraryProofs.ExportImportRestores | crates/pergamon-cli/src/main.rs:1781-2792 | export, write, read and import into an empty library restores every feed that hangs from the root with title, URL, site URL and folder path, and every folder that does, empty ones included, and nothing else |
| LibraryProofs.FoldersRestored | crates/pergamon-cli/src/main.rs:1781-2792 | the restored library has a folder at a path if and only if the exported one has |
| KeyFile.EncryptedFile.Update | crates/pergamon-keystore/src/lib.rs:438-475 | file, view and result of one update for every fault: refresh, refusal of a changed salt, edits, flush |
| KeyFile.EncryptedFile.Open | crates/pergamon-keystore/src/lib.rs:399-432 | a stored file is opened if and only if its first entry, if any, was sealed under its own name with this passphrase and the file's salt; a missing one starts empty |
| KeyFile.EncryptedFile.Flush | crates/pergamon-keystore/src/lib.rs:496-545 | the file changes all at once or not at all; only the directory flush can fail after the change |
| KeyFile.EncryptedFile.Get | crates/pergamon-keystore/src/lib.rs:477-494 | an absent name reads as nothing, a value sealed under the view's key and this name as itself, anything else is a wrong passphrase |
| KeyFile.UpdateIsRead | crates/pergamon-keystore/src/lib.rs:438-494 | after a successful update every name reads as its last edit in the batch, and names not edited as the file held them |
| KeyFileProtocol.StepKeeps | crates/pergamon-keystore/src/lib.rs:399-545 | every step of every writer, crashes included, keeps the protocol's invariant |
| KeyFileProtocol.RunKeeps | crates/pergamon-keystore/src/lib.rs:399-545 | so does every interleaving of any number of writers |
| KeyFileProtocol.FileHoldsCommittedBatches | crates/pergamon-keystore/src/lib.rs:438-545 | after any run the file is the replay of the committed batches in lock order, each whole, none lost, none given up, no call twice |
| KeyFileProtocol.OneWriterAtATime | crates/pergamon-keystore/src/lib.rs:438-475 | no two writers are ever between lock and unlock |
| KeyFileProtocol.HistoryGrows | crates/pergamon-keystore/src/lib.rs:438-545 | history is never rewritten and the salt of an existing file never changes |
| KeyFileProtocol.DroppedStaysDropped | crates/pergamon-keystore/src/lib.rs:438-545 | a call that failed or crashed is committed in no later state |
| KeyFileProtocol.ReplayReads | crates/pergamon-keystore/src/lib.rs:438-475 | replaying a history leaves, under each name, the last edit of that name |
| KeyFileProtocol.AdmittedExactly | crates/pergamon-keystore/src/lib.rs:399-432 | whoever probes a stored entry is let in if and only if it was sealed under that name with this passphrase and the file's salt |
| KeyFileProtocol.EmptyFileAdmitsAnyone | crates/pergamon-keystore/src/lib.rs:415-419 | a file without entries lets in any passphrase |
| KeyFileProtocol.OnlyOnePassphrase | crates/pergamon-keystore/src/lib.rs:399-545 | in every regular run all commits and entries carry the first commit's key, and exactly its passphrase is let in |
| KeyFileProtocol.OnePassphraseIsRegular | crates/pergamon-keystore/src/lib.rs:399-545 | every run in which all use one passphrase is regular |
| KeyFileProtocol.ReadersSeeLastPublished | crates/pergamon-keystore/src/lib.rs:399-494 | after a regular run whoever is let in reads for every name the value last published, and nothing where it was removed |
| KeyFileProtocol.RenameCarries | crates/pergamon-keystore/src/lib.rs:438-545 | a rename publishes edits of earlier calls exactly when no file existed and the writer had edited before |
| KeyFileProtocol.FailedFirstEditCanLeak | crates/pergamon-keystore/src/lib.rs:438-545 | a concrete run in which a failed first edit is published by the next call |
| KeyFileProtocol.UninterruptedUpdate | crates/pergamon-keystore/src/lib.rs:438-545 | the stepwise protocol without faults or rivals does exactly the sequential update |
| KeyFileProtocol.CrashesFree | crates/pergamon-keystore/src/lib.rs:438-475 | any writer can crash at any moment, the file stays as it was, and another writer can update it at once |
| Wire.Cursor.TakeBytes | crates/pergamon-crypto/src/wire.rs:25-37 | the cursor only moves forward, never past its buffer, and stays put when too little is left |
| Wire.Cursor.ExpectTag | crates/pergamon-crypto/src/wire.rs:39-47 | a tag is consumed exactly when it is what comes next |
| Wire.Cursor.GetText | crates/pergamon-crypto/src/wire.rs:71-75 | text is read only if the bytes are well-formed UTF-8 |
| Wire.PrefixedReads | crates/pergamon-crypto/src/wire.rs:49-75 | a length-prefixed text is read from exactly one string of bytes |
| Wire.BeCanonical | crates/pergamon-crypto/src/wire.rs:49-61 | every byte string is the one big-endian form of the number it reads as |
| Wire.LengthsWritten | crates/pergamon-crypto/src/wire.rs:1-24 | a length reads back as itself, or as the most four bytes hold |
| Wire.U32Bytes | crates/pergamon-crypto/src/wire.rs:49-61 | a length is written as its four bytes, the most significant first |
| Wire.I64Bytes | crates/pergamon-crypto/src/wire.rs:49-69 | a time is written in two's complement, sign bit first |
| Wire.Utf8Exactly | crates/pergamon-crypto/src/wire.rs:71-75 | the bytes accepted as text are exactly the encodings of texts, character by character |
| Records.EncodeDevice | crates/pergamon-crypto/src/device.rs:194-212 | appending field by field writes the record's one encoding |
| Records.DecodeDevice | crates/pergamon-crypto/src/device.rs:218-237 | stepping the cursor is the specified decoder, error by error |
| Records.DeviceCodec | crates/pergamon-crypto/src/device.rs:194-237 | bytes decode to a record if and only if they are that record's encoding, for all bytes and records |
| Records.DeviceSelfDelimiting | crates/pergamon-crypto/src/device.rs:194-237 | an encoding cut short or extended never decodes |
| Records.DeviceLayout | crates/pergamon-crypto/src/device.rs:146-212 | tag, length, handle, agreement key, signing key, time and signature stand in this order, on the wire and in what is signed |
| Records.EncodeAttestation | crates/pergamon-crypto/src/attestation.rs:130-160 | appending field by field writes the attestation's one encoding |
| Records.DecodeAttestation | crates/pergamon-crypto/src/attestation.rs:167-194 | stepping the cursor is the specified decoder, error by error |
| Records.AttestationCodec | crates/pergamon-crypto/src/attestation.rs:130-194 | bytes decode to an attestation if and only if they are its encoding |
| Records.AttestationSelfDelimiting | crates/pergamon-crypto/src/attestation.rs:130-194 | an encoding cut short or extended never decodes |
| Records.AttestationLayout | crates/pergamon-crypto/src/attestation.rs:77-160 | tag, kind, signer, subject, epoch, time and signature stand in this order, on the wire and in what is signed |
| Records.PackageCodec | crates/pergamon-crypto/src/recovery.rs:175-207 | a key package reads back if and only if something is wrapped in it, and only from its own encoding |
| Records.PackageAccepts | crates/pergamon-crypto/src/recovery.rs:190-207 | exactly the strings of 42 bytes or more with the right magic and version are key packages |
| Records.PackageErrors | crates/pergamon-crypto/src/recovery.rs:190-207 | for every refused package, which of the four errors |
| Records.PackageLayout | crates/pergamon-crypto/src/recovery.rs:175-187 | magic, version, account, salt and what is wrapped stand in this order |
| Records.EmptyPackageRefused | crates/pergamon-crypto/src/recovery.rs:43-66 | a package with nothing wrapped can be written and is refused on reading |
| AccountId.WriteHex | crates/pergamon-crypto/src/hierarchy.rs:190-199 | the digit loop writes the handle's hexadecimal form |
| AccountId.ReadHex | crates/pergamon-crypto/src/hierarchy.rs:205-220 | the loop over digit pairs is the specified reader |
| AccountId.HexRoundTrip | crates/pergamon-crypto/src/hierarchy.rs:190-220 | written handles read back, for any bytes |
| AccountId.HandleReads | crates/pergamon-crypto/src/hierarchy.rs:190-231 | a text reads as a handle if and only if, trimmed and in lower case, it is how the handle is written |
| Envelope.BuildAad | crates/pergamon-crypto/src/envelope.rs:70-96 | the buffer built field by field is the specified header encoding |
| Envelope.EventLayout | crates/pergamon-crypto/src/envelope.rs:70-111 | the fields of associated data and signed bytes, one by one in order, every text behind its length |
| Envelope.AadPrefixFree | crates/pergamon-crypto/src/envelope.rs:70-96 | no header's bytes begin with another's |
| Envelope.AadInjective | crates/pergamon-crypto/src/envelope.rs:70-96 | two headers share their bytes only if they are the same header |
| Envelope.SigningInjective | crates/pergamon-crypto/src/envelope.rs:103-111 | what a device signs determines header and ciphertext |
| Envelope.AttestationSigningInjective | crates/pergamon-crypto/src/attestation.rs:77-89 | what is signed determines the attestation |
| Envelope.DeviceSigningInjective | crates/pergamon-crypto/src/device.rs:146-156 | what is signed determines the device record |
| Envelope.StatementsInjective | crates/pergamon-crypto/src/envelope.rs:103-111 | across events, attestations and device records no two different statements are signed as the same bytes |
| Envelope.SignatureBindsStatement | crates/pergamon-crypto/src/envelope.rs:119-146 | a signature verifies for its own signer and its own statement only |
| Envelope.KeysSeparated | crates/pergamon-crypto/src/hierarchy.rs:75-160 | no two purposes, epochs or accounts share a derived key |
| Envelope.OpensUnderItsHeaderOnly | crates/pergamon-crypto/src/envelope.rs:150-190 | a sealed event opens exactly under its own header and epoch key and yields its plaintext; otherwise which error it is |
| Envelope.OpenedWasSealed | crates/pergamon-crypto/src/envelope.rs:150-190 | whatever opens was sealed under that very header and key |
| Envelope.AccountsReadOwnEvents | crates/pergamon-crypto/src/envelope.rs:150-190 | starting from account secrets: events are readable exactly with the same account, epoch and header |
| Envelope.EntityRefInjective | crates/pergamon-crypto/src/envelope.rs:196-219 | entity type and id cannot be confused in what is hashed |
| SmartFilter.Tokenize | crates/pergamon-core/src/smart_filter.rs:202-244 | the loop with its open-token variable yields the slices of the specified ranges |
| SmartFilter.SpansCover | crates/pergamon-core/src/smart_filter.rs:202-244 | tokens are disjoint slices in order and together cover every character that is not white space |
| SmartFilter.Parse | crates/pergamon-core/src/smart_filter.rs:102-120 | trimming, tokenizing and parsing token by token, stopping at the first error |
| Text.TrimCuts | crates/pergamon-core/src/smart_filter.rs:102-106 | trimming cuts all the white space off both ends, and nothing else |
| SmartFilterAccepts.DateExactly | crates/pergamon-core/src/smart_filter.rs:376-403 | a date is four, two and two characters between hyphens, each part digits after a plus sign that may stand in front |
| SmartFilterAccepts.ValueExactly | crates/pergamon-core/src/smart_filter.rs:281-403 | a value is read as a predicate if and only if the grammar gives it that meaning under its key and sign |
| SmartFilterAccepts.ValueErrors | crates/pergamon-core/src/smart_filter.rs:281-403 | for every value without a meaning, which error is reported |
| SmartFilterAccepts.TokenExactly | crates/pergamon-core/src/smart_filter.rs:246-293 | a token is accepted if and only if sign, key and value, quotes taken off, have a meaning together |
| SmartFilterAccepts.QueryExactly | crates/pergamon-core/src/smart_filter.rs:102-120 | a query is read as a filter if and only if it has tokens and each means the predicate at its place |
| SmartFilterAccepts.RefusedAt | crates/pergamon-core/src/smart_filter.rs:102-120 | the first token that means nothing names the error of the query |
| SmartFilterAccepts.JoinedExactly | crates/pergamon-core/src/smart_filter.rs:102-244 | tokens joined by spaces are read token by token |
| SmartFilterAccepts.DateToken | crates/pergamon-core/src/smart_filter.rs:287-288 | `since:` and `before:` with any well-formed date are accepted |
| SmartFilter.Display | crates/pergamon-core/src/smart_filter.rs:152-184 | the printing loop joins the printed predicates with single spaces |
| SmartFilterProofs.TokenPrintsBack | crates/pergamon-core/src/smart_filter.rs:246-403 | a parsed token with no white space and no quote right behind a colon prints as itself, for every key |
| SmartFilterProofs.PrintParse | crates/pergamon-core/src/smart_filter.rs:102-403 | for every query that parses and has no quote right behind a colon, printing and parsing again gives the same filter, and the print is the query's tokens with single spaces |
| SmartFilterReprint.ReprintsExactly | crates/pergamon-core/src/smart_filter.rs:102-403 | for any query that parses, whatever quotes it or its values hold: the print parses back to the filter if and only if each printed predicate is scanned as one token (only the last may leave a quote open, and then must not end in white space), no value is itself wrapped in quotes, and none is the empty tag |
| SmartFilterReprint.CalmSurvives | crates/pergamon-core/src/smart_filter.rs:152-288 | a print with no quote right behind a colon, such as `text:it's`, survives if and only if it holds no white space and is not the empty tag |
| SmartFilterProofs.QuotedText | crates/pergamon-core/src/smart_filter.rs:202-288 | a quoted text value is taken literally, white space, colons and the other quote included |
| SmartFilterProofs.QuotedValueNotReprinted | crates/pergamon-core/src/smart_filter.rs:152-184 | a concrete quoted filter whose printed form does not parse |
| Rules.SortIsStable | crates/pergamon-core/src/rule.rs:121-135 | rules run sorted by priority, none lost, equal priorities in their given order |
| Rules.MatchContext.EvaluateRules | crates/pergamon-core/src/rule.rs:121-155 | the loop over the growing tag list returns the specified plan and leaves the specified tags |
| RulesMeaning.RunsInOrder | crates/pergamon-core/src/rule.rs:121-125 | the rules run are exactly the enabled ones, each once, by priority and among equals as given |
| RulesMeaning.MatchesExactly | crates/pergamon-core/src/rule.rs:162-197 | each kind of predicate holds exactly when the lists and texts it speaks of say so, position by position |
| RulesMeaning.FiresExactly | crates/pergamon-core/src/rule.rs:121-160 | a rule fires if and only if its query reads as a filter all of whose predicates hold |
| RulesMeaning.EvaluationIsMeaning | crates/pergamon-core/src/rule.rs:121-197 | for the enabled rules in run order and the one choice of firing rules that fits them, the plan is their actions in order and the final tags are the initial ones and behind them the named ones, each once |
| RulesMeaning.MeaningExists | crates/pergamon-core/src/rule.rs:121-197 | there is exactly one run order and exactly one such choice |
| RulesMeaning.DisabledIgnored | crates/pergamon-core/src/rule.rs:121-124 | a rule that is switched off might as well not be there |
| RulesMeaning.SinceExactly | crates/pergamon-core/src/rule.rs:177-184 | an item counts as created since a date unless its day is earlier; on the date itself the rest of its stamp decides |
| RulesMeaning.FirstSecondMissed | crates/pergamon-core/src/rule.rs:177-205 | a fraction of the first second after midnight sorts in front of midnight |
| RulesMeaning.LaterTimes | crates/pergamon-core/src/rule.rs:177-205 | every later time of a day sorts behind its midnight |
| Rules.EvaluationMonotone | crates/pergamon-core/src/rule.rs:121-197 | with more initial tags the plan contains the old plan in order and the final tags include the old ones |
| Rules.OutcomeDistinct | crates/pergamon-core/src/rule.rs:121-155 | tags that differ in more than case stay so, and initial tags keep their place |
| Fsrs.HistoryInRange | crates/pergamon-core/src/fsrs.rs:254-404 | over every review history stability, difficulty and interval stay in their ranges |
| Fsrs.RecallFalls | crates/pergamon-core/src/fsrs.rs:238-242 | recall lies in (0, 1], starts at 1 and strictly falls with time |
| Fsrs.RecallAtRawInterval | crates/pergamon-core/src/fsrs.rs:238-250 | at the unclamped interval recall is the desired retention |
| Fsrs.ScheduleInvertsForgetting | crates/pergamon-core/src/fsrs.rs:238-250 | recall at the scheduled interval equals the target exactly when no clamp acted, and lies below or above it according to which clamp did |
| Fsrs.IntervalMonotone | crates/pergamon-core/src/fsrs.rs:245-250 | more stability never shortens the interval, a higher target never lengthens it |
| Fsrs.StabilityOrder | crates/pergamon-core/src/fsrs.rs:283-330 | no rating but Again lowers stability, and Hard, Good, Easy give ever more |
| Fsrs.BetterRatingsWaitLonger | crates/pergamon-core/src/fsrs.rs:341-404 | for the same card and time a better rating never brings the card up earlier |
| Fsrs.DifficultyOrder | crates/pergamon-core/src/fsrs.rs:269-281 | next difficulty is monotone in the current one and antitone in the rating |
| Fsrs.AgainCanLowerDifficulty | crates/pergamon-core/src/fsrs.rs:269-281 | at the top of the scale Again lowers difficulty |
| Fsrs.AgainRaisesExactly | crates/pergamon-core/src/fsrs.rs:269-281 | for every difficulty in range, Again raises it if and only if the distance from the top outweighs the pull of mean reversion |
| Fsrs.LapseRaisesDifficulty | crates/pergamon-core/src/fsrs.rs:254-404 | after any review history of a new card one more Again strictly raises difficulty |
| FsrsNumbers.RecallAtStability | crates/pergamon-core/src/fsrs.rs:36-242 | as many days after a review as the stability, recall is 0.9 to twelve digits |
| FsrsNumbers.IntervalAtDefault | crates/pergamon-core/src/fsrs.rs:244-250 | at the default target the unclamped interval is the stability to twelve digits |
| FsrsNumbers.LapseMonotone | crates/pergamon-core/src/fsrs.rs:306-317 | a lapse leaves more the more stability there was, the easier the card and the less likely its recall |
| FsrsNumbers.LapseBounded | crates/pergamon-core/src/fsrs.rs:306-317 | a lapse on a later day leaves at most 2.37 times the old stability, above the least there can be |
| FsrsNumbers.SameDayLapse | crates/pergamon-core/src/fsrs.rs:319-333 | a lapse on the same day never raises stability |
| FsrsNumbers.SuccessMonotone | crates/pergamon-core/src/fsrs.rs:282-304 | a recall leaves more the easier the card and the less likely it was |
| FsrsNumbers.SuccessRaises | crates/pergamon-core/src/fsrs.rs:282-304 | every recall on a later day strictly raises stability, up to the most there can be |
| FsrsNumbers.FirstReview | crates/pergamon-core/src/fsrs.rs:252-266 | a better first rating starts with strictly more stability and no more difficulty |
| FsrsNumbers.FirstNumbers | crates/pergamon-core/src/fsrs.rs:48-266 | the stability each first rating starts with, and bounds for the difficulty of one rated hard |
| Slug.Slugify | crates/pergamon-export/src/slug.rs:17-52 | the collapsing loop, trimming and truncation give the specified slug |
| Slug.SlugIsNormal | crates/pergamon-export/src/slug.rs:17-70 | a slug is non-empty, of lower-case letters, digits and hyphens, with no double, leading or trailing hyphen, if and only if the limit is not zero or the fallback is used |
| Slug.SlugFits | crates/pergamon-export/src/slug.rs:17-70 | the length bound holds if and only if the limit is at least eight or there is something to make a slug of |
| Slug.SlugFixedPoints | crates/pergamon-export/src/slug.rs:17-70 | for every limit the strings left alone are exactly the normal forms that fit |
| Slug.SlugIdempotent | crates/pergamon-export/src/slug.rs:17-70 | slugifying again with the same limit changes nothing if and only if the limit is at least eight, or at least one with something to make a slug of |
| Slug.TrimmedIsWords | crates/pergamon-export/src/slug.rs:17-46 | before it is cut, a slug is the words of its input, its runs of ASCII letters and digits in lower case, with one hyphen between each two |
| Slug.TruncationCuts | crates/pergamon-export/src/slug.rs:54-70 | a long slug is cut at the last hyphen within the limit if that leaves half of it, and otherwise at the limit |
| Slug.SlugExactly | crates/pergamon-export/src/slug.rs:17-70 | the slug of any input: its words joined and cut, or the fallback when it has none |
| Template.Parse | crates/pergamon-export/src/template.rs:69-116 | the character loop is the specified parser, and its flag is set exactly when an id segment is present |
| Template.AcceptedPrintsBack | crates/pergamon-export/src/template.rs:69-197 | every accepted template prints back to itself, as well-formed segments |
| Template.PrintedParsesBack | crates/pergamon-export/src/template.rs:69-197 | segments parse back from their print if and only if they are well formed and not empty |
| Template.RefusedAtBrace | crates/pergamon-export/src/template.rs:69-116 | behind well-formed segments a brace that is not closed, or closes on no placeholder, is refused as that |
| Template.RefusedExactly | crates/pergamon-export/src/template.rs:69-116 | every refused template that is not empty has such a brace |
| Template.Render | crates/pergamon-export/src/template.rs:131-155 | the rendering loop concatenates the pieces in order |
| Template.EveryKindRendered | crates/pergamon-export/src/template.rs:131-155 | a name with every kind of segment, spelled out down to the words of title and type |
| Markdown.Plan | crates/pergamon-export/src/markdown.rs:133-197 | the planning loop with its map of used names gives each item its path, id and links |
| Markdown.PathsMeet | crates/pergamon-export/src/markdown.rs:168-190 | without an id in the template two items share a path exactly when both were renamed from one name and their ids start alike |
| Markdown.RenamedExactly | crates/pergamon-export/src/markdown.rs:168-190 | renaming puts the short id between stem and extension |
| Markdown.CollisionsResolved | crates/pergamon-export/src/markdown.rs:168-190 | with distinct short ids all planned paths are distinct, for every template without an id |
| Markdown.IdKeepsPathsApart | crates/pergamon-export/src/template.rs:131-169 | with an id that only fixed-width segments stand before, or only those after, all paths are distinct |
| Markdown.DefaultTemplate | crates/pergamon-export/src/template.rs:171-183 | in particular for the default template |
| Markdown.RelatedLists | crates/pergamon-export/src/markdown.rs:349-376 | the Related section lists each eligible stem once, in order, and no other |
| Markdown.LinksReachTheirItems | crates/pergamon-export/src/markdown.rs:137-376 | a link's stem is that of another exported item, and with `.md` its planned path if and only if the template has an id or the item was the first of its name |
| Kindle.Importer.Import | crates/pergamon-cli/src/main.rs:2203-2382 | the loop with its cache does what looking every book up would do, and its counters say what was created and found; a dry run writes nothing |
| Kindle.Importer.FindOrCreateSource | crates/pergamon-cli/src/main.rs:2216-2263 | the cache stays in agreement with lookup by key |
| Kindle.ImportAgain | crates/pergamon-cli/src/main.rs:2203-2382 | clippings imported before change no item, note, tag or review card, in any order, at any time, with any settings |
| Kindle.ImportStores | crates/pergamon-cli/src/main.rs:2203-2382 | the addresses afterwards are those of before, one for each book and one for each highlight |
| Kindle.ImportGrows | crates/pergamon-cli/src/main.rs:2203-2382 | an import only adds: every row of before is still there, in place |
| Kindle.KeysAre | crates/pergamon-import/src/kindle.rs:259-298 | the keys the counters speak of are those of the clippings that are not bookmarks, and of the highlights |
| Kindle.ImportRecords | crates/pergamon-cli/src/main.rs:2292-2338 | every highlight row added ties a clipping's words to the item and the book under its keys |
| Kindle.ImportTells | crates/pergamon-cli/src/main.rs:2216-2330 | every row added tells of one clipping, as a book or as a highlight: address, title, author, texts cut to whole characters, and times |
| Kindle.ImportNotes | crates/pergamon-cli/src/main.rs:2339-2370 | every note added holds one clipping's words under that clipping's book |
| Kindle.NoteAddedExactly | crates/pergamon-cli/src/main.rs:2339-2370 | a note is added if and only if it has words and its book has no note with them yet |
| Kindle.NotesThere | crates/pergamon-cli/src/main.rs:2339-2370 | after an import every note clipping's words are there under its book |
| Kindle.ImportCardsAndTags | crates/pergamon-cli/src/main.rs:2216-2338 | one card due now for each new highlight exactly when cards are wanted, and the tag on exactly the new books |
| Kindle.HashesAre | crates/pergamon-import/src/kindle.rs:245-298 | both hashes are the bytes read as one number in base 31, modulo 2 to the 64th |
| Kindle.KeysTell | crates/pergamon-import/src/kindle.rs:245-298 | two clippings share a key if and only if the hashes behind it agree |
| Kindle.KeyIgnoresLocationEnd | crates/pergamon-import/src/kindle.rs:277-298 | characters moved from the quote to the end of the location leave the key unchanged |
| Kindle.SecondIsDropped | crates/pergamon-cli/src/main.rs:2265-2290 | of two highlights with one key the second adds nothing |
| Kindle.SecondStoredExactly | crates/pergamon-cli/src/main.rs:2265-2290 | of two highlights new to the library, the second adds its row if and only if the keys differ |
| Kindle.DifferentHighlightsOneKey | crates/pergamon-import/src/kindle.rs:277-298 | two different highlights of any book, at locations 345-34 and 345-346, with one key |
| Kindle.ForecastIsUpperBound | crates/pergamon-cli/src/main.rs:2265-2290 | a dry run announces at least the highlights the import creates, and as many exactly when no new key comes up twice |
| OperatorSessions.Sessions.Serve | crates/pergamon-server/src/operator_session.rs:103-161 | purge, refresh, refusal or insertion: the new table and the answer of one request |
| OperatorSessions.AcceptedExactly | crates/pergamon-server/src/operator_session.rs:103-161 | a non-creating request is accepted if and only if its cookie was issued and never left unused for half an hour |
| OperatorSessions.TokenIsConstant | crates/pergamon-server/src/operator_session.rs:119-132 | the form token never changes while its session lives, and no open session is given a second cookie |
| OperatorSessions.NeverOverCapacity | crates/pergamon-server/src/operator_session.rs:133-147 | after any history there are at most 32 sessions |
| OperatorSessions.CreatedExactly | crates/pergamon-server/src/operator_session.rs:130-147 | a new session is given if and only if fewer than 32 are open in the history and the generator works; otherwise which error |
| Onboarding.Device.Bootstrap | crates/pergamon-cli/src/main.rs:7388-7497 | the command's writes, in order, up to where it stops |
| Onboarding.Device.AuthenticatedAttach | crates/pergamon-cli/src/main.rs:6536-6619 | the command's writes, in order, up to where it stops |
| Onboarding.Device.Login | crates/pergamon-cli/src/main.rs:6752-6854 | the command's writes, in order, up to where it stops |
| Onboarding.Device.Enroll | crates/pergamon-cli/src/main.rs:7604-7658 | the command's writes, in order, up to where it stops |
| Onboarding.Device.Accept | crates/pergamon-cli/src/main.rs:7749-7793 | the command's writes, in order, up to where it stops |
| Onboarding.Device.Recover | crates/pergamon-cli/src/main.rs:7912-7958 | the command's writes, in order, up to where it stops |
| Onboarding.RootKeyNeverChanges | crates/pergamon-cli/src/main.rs:7409-7944 | in every run of the six commands, stopping anywhere, a stored root key and stored device keys keep their values |
| Onboarding.AccountIdNeverChanges | crates/pergamon-cli/src/main.rs:6762-7944 | a stored account id keeps its value in every run where a join's intent and keys are one step and accept returns the id asked for |
| Onboarding.IdReplacedExactly | crates/pergamon-cli/src/main.rs:7604-7793 | exactly which commands in which states, stopped after how many writes, leave another id behind |
| Onboarding.SplitLoginLosesId | crates/pergamon-cli/src/main.rs:6830-6844 | a concrete run in which a join stopped between intent and keys costs a stored id |
| Onboarding.PlainEnrollCannotAccept | crates/pergamon-core/src/account_flow.rs:222-234 | after an enrollment with no pending join of its account and relay every accept is refused |
| Onboarding.AcceptAfterEnroll | crates/pergamon-cli/src/main.rs:7604-7793 | after any enrollment an accept is let through if and only if it names no other account, a join of the account with that relay is pending, and neither another account nor another root key is stored |
| OnboardingFlows.BootstrapAdmits | crates/pergamon-cli/src/main.rs:7400-7432 | exactly which states admit creating an account |
| OnboardingFlows.BootstrapResumesExactly | crates/pergamon-cli/src/main.rs:7409-7423 | a pending creation is taken up again if and only if its keys are all there |
| OnboardingFlows.JoinAdmits | crates/pergamon-cli/src/main.rs:6762-6830 | exactly which unbound devices can join |
| OnboardingFlows.EnrollAdmits | crates/pergamon-cli/src/main.rs:7604-7640 | exactly which states admit an enrollment |
| OnboardingFlows.RecoverAdmits | crates/pergamon-cli/src/main.rs:7912-7945 | exactly which states admit a recovery |
| OnboardingFlows.AttachAdmits | crates/pergamon-cli/src/main.rs:6536-6600 | exactly which unbound devices can be attached |
| OnboardingFlows.AttachAgainAdmits | crates/pergamon-cli/src/main.rs:6536-6600 | exactly which bound devices can be attached again |
| OnboardingFlows.JoinAgainAdmits | crates/pergamon-cli/src/main.rs:6762-6830 | a pending join is taken up again if and only if keys and account are those it was begun with |
| OnboardingFlows.RenewalAdmits | crates/pergamon-cli/src/main.rs:6762-6830 | exactly which devices can renew their session |
| OnboardingFlows.BootstrapCompletes | crates/pergamon-cli/src/main.rs:7388-7497 | on an untouched device a bootstrap makes seven writes and leaves keys, session and an active binding |
| OnboardingFlows.BootstrapAgain | crates/pergamon-cli/src/main.rs:7388-7497 | after how many writes a stopped bootstrap can simply be run again, and after how many not |
| OnboardingFlows.BootstrapAgainCompletes | crates/pergamon-cli/src/main.rs:7388-7497 | run again after its intent was recorded, a bootstrap ends where it would have at first |
| OnboardingFlows.AttachAfterStop | crates/pergamon-cli/src/main.rs:6536-6619 | where it cannot, the device can be attached |
| OnboardingFlows.JoinCompletes | crates/pergamon-cli/src/main.rs:6752-7793 | login and accept on an untouched device leave its own keys, the account's root key and id, and an active binding |
| OnboardingFlows.RecoverCompletes | crates/pergamon-cli/src/main.rs:7912-7958 | a recovery leaves new device keys, the recovered root key and the account, not yet bound |
| OnboardingFlows.AttachCompletes | crates/pergamon-cli/src/main.rs:6536-6619 | attaching binds the device under the id it has, or the database's account, or a new one |

## Left out

- XML: reading and writing tags, escaping and encodings; events are taken as given and escaping as a perfect inverse.
- HTTP, SQL, the file system, the operating-system keychain and the user interfaces; tables are sequences and maps, a rename is atomic, a lock excludes.
- KeyFileProtocol.AdmittedExactly: any stored entry may be probed there; that the first in name order is probed is stated of `EncryptedFile.Open`.
- KeyFileProtocol.RunKeeps: leftover temporary files, file permissions and the keychain backend are not part of the state.
- `save_account_material`: its check reads the view of before the lock, so it says nothing about a view that disagrees with the file.
- Library.Importer.ImportOutlines: the dry-run branch, the canonical form of URLs and database errors; folder names are folded as ASCII, as the database collation does.
- Rules.EvaluationIsMeaning: lower-casing is modelled for ASCII letters only, and creation times are compared in their printed form.
- Fsrs.HistoryInRange: exact reals, so floating-point rounding is not modelled; a lapse need not lower stability, only how far it can raise it is claimed.
- Records.DeviceCodec: that a handle is derived from its signing key is checked apart from decoding and is not part of the model.
- Envelope.AadInjective: lengths are below 2^32, where the length prefix does not saturate.
- Markdown.IdKeepsPathsApart: templates with the id between two pieces of varying width are not claimed to keep paths apart.
- Markdown.Plan: front matter and body text other than the links; years outside 0 to 9999 in the distinctness theorems.
- Kindle.Importer.Import: reading the clippings file, the position number parsed from a location, storage errors and the roll-back they cause, the import log; lower-casing in keys is ASCII only.
- OperatorSessions.Sessions.Serve: the origin checks around it, and requests served at the same time.
- Onboarding.RootKeyNeverChanges: importing a key package, which replaces keys without asking, is excluded; recovery artefacts, tenant details and epochs are not stored; a relay failure is a stop.
- Onboarding.AccountIdNeverChanges: ids are compared as values, not by how a user spells their digits.
- URL canonicalization, statistics display, enum tables, reading-time estimates: easy members only.
- The other exporters and importers, sync, and everything in `pergamon-sync`.
