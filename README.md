# parse_webui: a verified model of the web-UI result loader

parse_webui.py is a small extract-and-load script. It does three things:
- walks a Stable Diffusion web-UI output directory, two levels deep;
- parses every YAML metadata file it finds;
- pairs each metadata file with the one PNG image of its batch, then inserts one row per new filename stem into the `prompts` table of an sqlite database.

This project models that logic in Dafny and proves what the script guarantees.

The model has seven modules:

- `Wrappers` (wrappers.dfy) holds `Option` and `Result`.
- `Text` (text.dfy) holds Python's `t in s` on strings (`Contains`) and `s.split(sep)` for a one-character separator (`Split`, `FirstField`). It also proves the facts about them that the rest needs: split and join are inverses, and the first field is the separator-free prefix.
- `ResultFiles` (result_files.dfy) is the reading half.
  - The file system is a value: an `Entry` is a `File(name, contents)` or a `Dir(name, children)`, and a directory listing is a `seq<Entry>` in enumeration order.
  - `yaml.safe_load` becomes a parameter `load` that maps a file's bytes to a `Loaded` document.
  - `get_image` and `process_file` are functions returning a `Result`; every exception they can raise is one `WalkError`.
  - `parse_result_files` is a method with the script's nested loops. It is proved equal to the function `Walk`.
  - The loops call a step function of type `Processor`. `ProcessWith(load)` is process_file, so facts about the walk are stated once, for any step.
- `WalkFacts` (walk_facts.dfy) states what the walk yields without its loops. It lists the metadata files the walk visits, each with the listing its image is looked up in (`Sources`). It proves one record per metadata file in enumeration order, the first failure aborting the walk, and that nothing below the second level is ever read.
- `PromptsDb` (prompts_db.dfy) is the writing half.
  - The prompts table is a `map` from the filename column to a `Row`, held by the class `PromptsTable`.
  - `add_results_db` is a method whose loop calls `AddOne` for each record. `AddOne` is proved against the function `Handle`, and the loop against the function `Sink`.
  - A store error (`sqlite3.Error`) is an abstract failure. `fault == Some(i)` says the store raises at the first store call for record `i`.
- `SinkFacts` (sink_facts.dfy) proves what `Sink` guarantees about the table:
  - rows already present never change;
  - every record's key ends up present;
  - a new key's row is built from the first record with that key;
  - a second run inserts nothing;
  - a failure leaves exactly the rows committed before it.

  The proofs are generic over the iteration. `HandleAtFacts` shows that add_results_db's iteration has each property they need.
- `Scenarios` (scenarios.dfy) works through one batch `00001` with `00001-seed.yaml` and `00001-seed.png`, then with an upscaled `-esrgan4x` variant, then with a second image of the same batch.

Some behaviours of the script that the model keeps as written:

- get_image raises the same exception, with the same message, for zero and for several matches (parse_webui.py:17-18). The model has the single error `NoUniqueImage` for both.
- The row key is the file name cut at its first ".", not at its extension (parse_webui.py:73): "a.b.yaml" is keyed "a".
- A name is a metadata file when ".yaml" occurs anywhere in it, not only at its end (parse_webui.py:31, 36). A directory with such a name is handed to process_file, whose `open` then fails.

## Model

| member | source | states |
|---|---|---|
| Text.ContainsIffOccurs | parse_webui.py:15 | Python's substring test holds exactly when the needle occurs at some position of the name |
| Text.MissingCharRulesOut | parse_webui.py:15 | a name lacking one character of the needle does not contain it |
| Text.FirstField | parse_webui.py:44 | `s.split(sep)[0]` is a prefix of `s` without `sep`, followed by `sep` or by the end of `s` |
| Text.FirstFieldUnique | parse_webui.py:44 | those three properties single out `s.split(sep)[0]` |
| Text.FirstFieldWhole | parse_webui.py:73 | the first field is the whole string exactly when the separator does not occur |
| Text.SplitFacts | parse_webui.py:44 | no field of `s.split(sep)` contains the separator |
| Text.JoinSplit | parse_webui.py:44 | joining the fields of a split with the separator gives back the string |
| ResultFiles.CandidatesFacts | parse_webui.py:12-16 | an entry is a candidate exactly when it is one of the entries whose name contains the batch id and ".png" and not "esrgan4x"; no such entry gives no candidate |
| ResultFiles.CandidatesSingleIffUnique | parse_webui.py:12-17 | the comprehension has exactly one element exactly when exactly one entry matches the filter |
| ResultFiles.GetImageCases | parse_webui.py:8-23 | get_image returns bytes exactly when exactly one entry matches and it is a file, and then returns that file's contents; a single matching directory raises from `open`; zero or several matches raise, returning no contents |
| ResultFiles.BatchId | parse_webui.py:44 | the batch id is the file name up to its first "-", or the whole name when there is none, and contains no "-" |
| ResultFiles.ProcessFileCases | parse_webui.py:42-54 | process_file fails in code order: `open` on a directory, then a YAML error, then get_image's error, then a document that is not a mapping; it succeeds exactly when none of these happens, returning one record that is the parsed mapping overridden by "filename" (the file's name) and "image" (its batch's image bytes) |
| ResultFiles.SubWalkErrorSticks | parse_webui.py:35-37 | once the inner loop has raised, later entries change nothing |
| ResultFiles.TopWalkErrorSticks | parse_webui.py:30-37 | once the outer loop has raised, later entries change nothing |
| ResultFiles.SubWalkNext | parse_webui.py:35-37 | one inner-loop step: a non-metadata entry adds nothing, a metadata entry's records are appended, and its failure is the loop's result |
| ResultFiles.TopWalkNext | parse_webui.py:30-37 | one outer-loop step: an entry's records are appended, and its failure is the walk's result |
| ResultFiles.WalkSubdirectory | parse_webui.py:34-37 | the inner loop over a subdirectory's listing returns the records of its metadata files, each processed against that listing, or the first failure |
| ResultFiles.ParseResultFiles | parse_webui.py:26-39 | the nested loops return exactly `Walk` of the root listing |
| WalkFacts.RunAllAppend | parse_webui.py:32 | processing two lists of sources one after the other concatenates their records, and the first list's failure wins |
| WalkFacts.SubWalkIsRunAll | parse_webui.py:34-37 | the inner loop processes exactly the subdirectory's metadata files, each with that subdirectory's listing |
| WalkFacts.EntryIsRunAll | parse_webui.py:31-37 | what one top-level entry contributes is what processing its sources yields |
| WalkFacts.TopWalkIsRunAll | parse_webui.py:28-39 | the walk processes exactly the sources of the entries it has passed, in order |
| WalkFacts.RunAllOkIff | parse_webui.py:30-37 | processing a list of sources succeeds exactly when each one does |
| WalkFacts.RunAllValues | parse_webui.py:30-37 | when each source yields one record, a success holds those records, one per source, in order |
| WalkFacts.RunAllFirstFailure | parse_webui.py:30-37 | a failure is the failure of the first source that fails, all earlier ones having succeeded |
| WalkFacts.ProcessFileOneRecord | parse_webui.py:42-54 | every success of process_file is a one-element list |
| WalkFacts.WalkRecords | parse_webui.py:26-39 | parse_result_files succeeds exactly when every metadata file it visits is processed; it then yields one record per such file in enumeration order, and otherwise fails as the first failing file does |
| WalkFacts.SubSourcesShape | parse_webui.py:34-37 | a subdirectory's sources are exactly its metadata entries, each paired with the subdirectory's own listing |
| WalkFacts.SourcesShape | parse_webui.py:28-37 | the walk visits exactly the top-level metadata entries (with the root listing) and the metadata entries directly inside a top-level non-metadata directory (with that directory's listing) |
| WalkFacts.SourcesFollowEnumeration | parse_webui.py:30 | the sources of an earlier part of the root listing come before those of a later part |
| WalkFacts.SubSourcesFollowEnumeration | parse_webui.py:35 | inside a subdirectory, the sources of an earlier part of its listing come before those of a later part |
| WalkFacts.CandidatesSameListing | parse_webui.py:12-16 | listings that look alike entry by entry give candidate lists that look alike |
| WalkFacts.GetImageSameListing | parse_webui.py:8-23 | get_image never reads a subdirectory's contents: listings equal in names, kinds and file bytes give the same result |
| WalkFacts.ProcessFileSameListing | parse_webui.py:42-54 | process_file gives equal results on listings and files that look alike |
| WalkFacts.ProcessFileSurfaceOnly | parse_webui.py:42-54 | process_file, as a walk step, depends only on the surface of the file and of its listing |
| WalkFacts.SubWalkSameListing | parse_webui.py:34-37 | the inner loop gives equal results on subdirectory listings that look alike |
| WalkFacts.TopWalkSameTwoLevels | parse_webui.py:30-37 | the outer loop gives equal results on trees that agree on their first two levels |
| WalkFacts.WalkIgnoresDeeperLevels | parse_webui.py:26-39 | entries nested below a top-level subdirectory are ignored: trees that agree on two levels give the same records or the same failure |
| PromptsDb.Stem | parse_webui.py:73 | the row key is the file name up to its first ".", contains no ".", and is followed by "." or by the end of the name |
| PromptsDb.FirstMissing | parse_webui.py:84-92 | the first key of a list the record lacks, in the order the INSERT reads them, or none when it has all of them |
| PromptsDb.BuildRow | parse_webui.py:80-94 | the inserted row is built exactly when the record has every key the INSERT reads; the row holds the key, prompt, "web-ui", seed, image, target as type, cfg_scale, ddim_steps as sampling_steps and sampler_name; otherwise the first missing key raises |
| PromptsDb.HandleCases | parse_webui.py:71-98 | one iteration: a store fault fails first; a key that cannot be read fails; a present key leaves the table as it is; a new key gets the row built from the record, or fails as building it does; a failure carries the record's position |
| PromptsDb.PromptsTable.constructor | parse_webui.py:69 | the connection starts on a table keyed by its filename column |
| PromptsDb.PromptsTable.HasRow | parse_webui.py:74-78 | the SELECT finds a row exactly when some row's filename column equals the key |
| PromptsDb.PromptsTable.Insert | parse_webui.py:81-95 | the committed INSERT of a row whose filename is not yet present adds exactly that row, and keeps the table keyed by filename |
| PromptsDb.RunFailureSticks | parse_webui.py:96-98 | once a record has failed, the later records are not handled |
| PromptsDb.RunStopsAt | parse_webui.py:96-98 | a record that fails ends add_results_db there, with the table as it was before that record |
| PromptsDb.RunMovesOn | parse_webui.py:70-95 | a record that is handled moves the loop on with the updated table |
| PromptsDb.AddOne | parse_webui.py:71-98 | the loop body does exactly what `Handle` says to the table, and changes nothing when it fails |
| PromptsDb.AddResultsDb | parse_webui.py:68-99 | the loop leaves the table and the failure exactly as `Sink` says, and keeps the table keyed by filename |
| SinkFacts.HandleAtFacts | parse_webui.py:71-98 | add_results_db's iteration keeps present rows, adds only its record's key, stores the row built from the record under a new key, keeps the table keyed by filename, and reports its position on failure |
| SinkFacts.HandleAtSkipsPresentKeys | parse_webui.py:74-78 | without a store fault, a record whose key is present is skipped and cannot fail |
| SinkFacts.RunKeepsRows | parse_webui.py:78 | rows present after some records are still present, unchanged, after more records |
| SinkFacts.RunNewKeysFromRecords | parse_webui.py:80-95 | every key the loop added is the key of a record it handled |
| SinkFacts.RunKeyedByFilename | parse_webui.py:84 | the loop keeps every row under its own filename |
| SinkFacts.RunCoversKeys | parse_webui.py:70-95 | a loop that did not fail has a row for the key of every record it handled |
| SinkFacts.RunFirstRecordWins | parse_webui.py:74-95 | the row under a key that was new is the row built from the first record with that key |
| SinkFacts.RunNothingNew | parse_webui.py:74-78 | over records whose keys are all present, the loop inserts nothing and cannot fail |
| SinkFacts.RunOnPrefix | parse_webui.py:70 | the first m iterations read only the first m records |
| SinkFacts.RunFailureAt | parse_webui.py:96-98 | a failing loop failed at a record it reached, with the table as it was just before that record |
| SinkFacts.SinkKeepsRows | parse_webui.py:74-95 | add_results_db never changes a row that was present, and adds rows only under keys of its records |
| SinkFacts.SinkKeyedByFilename | parse_webui.py:80-95 | add_results_db keeps every row under its own filename |
| SinkFacts.SinkCoversKeys | parse_webui.py:70-99 | after add_results_db completes, every record's key is present in the table |
| SinkFacts.SinkFirstRecordWins | parse_webui.py:73-95 | no key is inserted twice: a new key's row is the row of the first record with that key, even when later records in the batch share it |
| SinkFacts.SinkIdempotent | parse_webui.py:74-78 | running add_results_db again on the same records inserts nothing and succeeds |
| SinkFacts.SinkFailureKeepsEarlierRows | parse_webui.py:95-98 | after a failure mid-loop, the table is exactly what a complete run over the earlier records leaves, and later records are not handled |
| SinkFacts.SinkStoreFault | parse_webui.py:96-98 | a store error at a record the loop reaches ends the loop there, with the earlier rows kept |
| SinkFacts.MergedRecordRow | parse_webui.py:80-94 | a merged record is keyed by its file name's stem; its row can be built exactly when the parsed mapping has the six metadata keys, and it then holds the parsed values and the image bytes |
| SinkFacts.ProcessedRecordRow | parse_webui.py:49-51 | the record process_file builds is keyed by the metadata file's stem, and its row, when it has the metadata keys, holds the parsed values and the matched image |
| Scenarios.YamlNames | parse_webui.py:31 | "00001-seed.yaml" is a metadata file, not an image, of batch "00001" and stem "00001-seed" |
| Scenarios.PngNames | parse_webui.py:15 | "00001-seed.png" passes the image filter for batch "00001" and is not a metadata file |
| Scenarios.UpscaledVariantIgnored | parse_webui.py:15 | with the upscaled "-esrgan4x" variant beside it, the batch's image is still the one match |
| Scenarios.SecondImageRejected | parse_webui.py:17-18 | a second image of the same batch makes get_image raise |
| Scenarios.ImageOfBatch | parse_webui.py:8-23 | in a directory holding the metadata file and its image, get_image returns the image's bytes |
| Scenarios.ProcessBatch | parse_webui.py:42-54 | processing the metadata file gives one record: its parsed values with its name and the image's bytes |
| Scenarios.WalkOneBatch | parse_webui.py:26-39 | a directory holding one batch yields exactly that record |
| Scenarios.MergedKey | parse_webui.py:73 | the record's row key is "00001-seed" |
| Scenarios.MergedRow | parse_webui.py:80-93 | the record's row holds the example's prompt, seed, image, type, cfg_scale, sampling_steps and sampler_name |
| Scenarios.SinkOneBatch | parse_webui.py:68-99 | loading that record into an empty table adds exactly one row, keyed "00001-seed" |

## Left out

- Real file I/O (`open`/`read`, `Path.iterdir`, `is_dir`) is not modelled: the directory tree is the value `Entry`, and a file's bytes are part of its entry. An unreadable file or a listing that changes during the walk is therefore not modelled.
- YAML parsing (`yaml.safe_load`) is the parameter `load`. Its outcome is a `Loaded` value: a mapping, another document, or a syntax error. The mapping's values are scalars (`Value`); nested lists and mappings are not modelled.
- sqlite is not modelled: the connection, cursors, SQL text, `fetchall` and `commit`. The table is a map from filename to row; the script never creates two rows with the same filename, and rows that were already duplicated in the database are not modelled. PromptsTable.Insert is defined only for a filename that is not yet present, the only INSERT the script issues; an INSERT of a present filename, which sqlite would add as a second row or reject under a UNIQUE constraint, is not modelled.
- create_connection's print-and-return-None path is left out, along with the resulting failure on `conn.cursor()`. So is closing the connection, both at the end and before a store error is re-raised.
- AddResultsDb: a store error is modelled at one point only, the first store call for a record (`conn.cursor()`). Errors raised by the SELECT, the INSERT or the commit are not distinguished from it. A failed commit that leaves its row uncommitted is not modelled.
- Closing the connection is not modelled, so neither is the difference it makes between an `sqlite3.Error`, which goes through the `except` and closes the connection first (parse_webui.py:96-97), and a `KeyError` or `AttributeError`, which propagates without reaching it. The model does tell the causes apart (`StoreFault` against `MissingKey` and `FilenameNotText`), and each ends the loop with a `SinkError`.
- PromptsDb.BuildRow: a value sqlite cannot bind makes the INSERT raise: an integer outside [-2^63, 2^63) raises OverflowError, and a list or a mapping raises an sqlite3 error. `BuildRow` builds the row from any such value; the model covers these failures only by a `fault` at that record, not as a consequence of the data.
- The command-line entry point (`main`, `argparse`) and every `print` are left out: they only print and pass arguments.
- Concurrency is left out: the script is single-threaded. Two instances racing on the same table are outside the model.
