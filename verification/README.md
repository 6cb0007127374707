# hsim in Dafny

A Dafny model of the core of `hsim`, the HTAN data simulator. It covers
three pieces of the Python package.

- **Identifier lineage** (`hsim/id_util.py`). Participant ids `h_i` and
  sample ids `h_i_j` are built here. So is the flat `[kind, id, parent]`
  table, with one PARTICIPANT row per participant followed by its SAMPLE
  rows. The two filters over the table and the parent lookup are included.
  Modules: `IdUtil` holds the operations and `IdTable` the properties of a
  generated table.
- **Schema templates and value synthesis** (`hsim/schema_util.py`). Module
  `SchemaUtil`. The loaded JSON-LD graph is a `map<string, SchemaNode>`. A
  template is the list of a record type's dependency fields. Each field gets
  a type inferred from its options and its comment. One value per field is
  then synthesized from an injected random draw.
- **Reader and link check** (`hsim/json_reader.py`). Module `JsonReader`. It
  builds the `id -> column` index of every schema. It then checks that each
  `ScRNA-seqLevel1` record's parent biospecimen id is a biospecimen of the
  same atlas, and keeps one error message per record that is not.

Support modules model the Python built-ins the code relies on:

- `Decimal`: `"%d"` on naturals and integers.
- `PyStr`: `str.strip`, `str.lower` and substring `in`.
- `JsonValue`: the JSON scalars and `"%s"`.
- `Wrappers`: `Option` and `Result`.
- `Alignment`: the lemma that ties the simulator's rows to the reader's
  column index.

A `KeyError` on the schema graph, on the reader index or on an atlas, and an
`IndexError` on a short record, are `Result` failures that name the missing
key or the short record.
Two kinds of exception are not modelled this way, and "## Left out" lists
them: the `ValueError` of `randint(0, -1)`, which a precondition excludes,
and a `KeyError` on a field the simulator always fills in (a node's `@id`,
say). `random.randint` is replaced by a `draw` argument, which a
precondition keeps in the inclusive range the call would use.

Points where the code does something other than it seems to, and what the
model follows:

- `generate_id_set` sets `counter = 0` and never changes it. So the parity
  test always takes its first branch, and each participant's samples form a
  chain. Sample 0's parent is the participant; sample `j > 0`'s parent is
  sample `j - 1`. The `else` branch at hsim/id_util.py:44-45 never runs, so
  the alternation between chaining and pointing back to the participant
  that the two branches suggest does not happen. `IdUtil.SampleRows` keeps
  the counter as a parameter and states both outcomes. The generated table
  always passes counter 0.
- `hsim/cli.py` writes each simulated record as `{"values": [...]}`. The
  reader indexes the record itself (`record[attribute_index]`). The model
  follows the reader, so a record is a positional `seq<Value>`.
- `tests/test_json_reader.py` calls `get_attribute_index`. The reader defines
  `get_index`, which is what `JsonReader.GetIndex` models.
- `tests/test_schema_util.py` defines `test_get_front_end_schema` twice. The
  first definition passes a third argument that `get_front_end_schema` does
  not take.

The functions are pure, so `extract_template` is deterministic by
construction: two calls on the same graph return the same template.

## Model

| member | source | states |
|---|---|---|
| `IdUtil.GenerateParticipantIds` | hsim/id_util.py:7-12 | exactly `max(n, 0)` ids, the x-th being the atlas id, `_` and x in decimal |
| `IdUtil.GenerateSampleIds` | hsim/id_util.py:15-20 | exactly `max(n, 0)` ids, the x-th being the participant id, `_` and x in decimal |
| `IdUtil.SampleRows` | hsim/id_util.py:38-45 | one SAMPLE row per sample id, in order; the first row takes the initial parent; with an even counter each later row's parent is the previous sample, with an odd one it is the participant |
| `IdUtil.ParticipantBlock` | hsim/id_util.py:32-45 | a participant's block is its PARTICIPANT row with parent `-`, followed by one row per sample |
| `IdUtil.ExtractParticipantIdList` | hsim/id_util.py:49-55 | an id is kept exactly when some PARTICIPANT row carries it; never more ids than rows |
| `IdUtil.ExtractSampleIdList` | hsim/id_util.py:57-63 | an id is kept exactly when some SAMPLE row carries it; never more ids than rows |
| `IdUtil.ExtractParentId` | hsim/id_util.py:65-69 | nothing exactly when no row has the id; otherwise the parent field of the first row that does |
| `IdTable.GeneratedLength` | hsim/id_util.py:23-47 | a generated table has `P * (1 + S)` rows |
| `IdTable.BlockRow` | hsim/id_util.py:32-45 | row `j` of participant `i`'s block is its PARTICIPANT row for `j = 0`, else sample `j - 1` with the chained parent |
| `IdTable.BlocksAt` | hsim/id_util.py:31-46 | the blocks are written one after the other: position `i * (1 + S) + j` of the table is row `j` of participant `i`'s block |
| `IdTable.GeneratedRowAtPosition` | hsim/id_util.py:23-47 | the row at position `i * (1 + S) + j` of a generated table is participant `i`'s row `j`: participant `htanId_i` for `j = 0`, else sample `htanId_i_(j-1)` with the chained parent |
| `IdTable.LocatePosition` | hsim/id_util.py:23-47 | every position of a generated table lies in exactly one block, at a column below the block width |
| `IdTable.ParticipantIdsDistinct` | hsim/id_util.py:7-12 | different participant numbers give different ids |
| `IdTable.SampleIdsDistinct` | hsim/id_util.py:15-20 | different (participant, sample) pairs give different sample ids |
| `IdTable.GeneratedIdsUnique` | hsim/id_util.py:23-47 | no two rows of a generated table share an id |
| `IdTable.ParentOfGeneratedRow` | hsim/id_util.py:65-69 | looking up any generated id returns the parent written on its row |
| `IdTable.SampleParent` | hsim/id_util.py:38-45 | sample 0's parent is its participant, and sample `j > 0`'s parent is sample `j - 1` |
| `IdTable.ParticipantParent` | hsim/id_util.py:33 | a participant's parent is `-` |
| `IdTable.ExtractConcat` | hsim/id_util.py:49-63 | both filters go row by row: the ids of two runs of rows are those of the first followed by those of the second, so the ids come out in table order |
| `IdTable.ExtractPartition` | hsim/id_util.py:49-63 | every row is counted by exactly one of the two filters |
| `IdTable.GeneratedParticipants` | hsim/id_util.py:49-55 | the participants read back from a generated table are the generated participant ids, `P` of them |
| `IdTable.GeneratedSamples` | hsim/id_util.py:57-63 | the samples read back are each participant's generated samples in order, `P * S` of them |
| `IdTable.Hta1ExampleRows` | tests/test_id_util.py:18-35 | for HTA1 with 2 participants of 4 samples: 10 rows, beginning HTA1_0, HTA1_0_0 (parent HTA1_0), HTA1_0_1 (parent HTA1_0_0) |
| `IdTable.Hta1ExampleCounts` | tests/test_id_util.py:37-41 | that table has 2 participants and 8 samples |
| `IdTable.Hta1ExampleParent` | tests/test_id_util.py:43-44 | that table gives HTA1_0_1 the parent HTA1_0_0 |
| `Decimal.FromNat` | hsim/id_util.py:11 | `%d` of a natural is a non-empty string of digits with no leading zero (only zero itself starts with `0`) |
| `Decimal.ToNatFromNat` | hsim/id_util.py:11 | the decimal text reads back as the same number |
| `Decimal.FromNatInjective` | hsim/id_util.py:19 | different numbers have different decimal texts |
| `PyStr.Strip` | hsim/schema_util.py:39-40 | the result is the input minus a whitespace-only prefix and suffix, and it neither starts nor ends with whitespace |
| `PyStr.StripIdempotent` | hsim/schema_util.py:39-40 | stripping twice is stripping once |
| `PyStr.Lower` | hsim/schema_util.py:65 | same length, each character lower-cased |
| `PyStr.Contains` | hsim/schema_util.py:66-67 | true exactly when the word occurs at some position of the text |
| `SchemaUtil.InferDataType` | hsim/schema_util.py:55-72 | LIST whenever there are options; otherwise NUMERIC exactly when the lower-cased comment contains "number" or "numeric", else STRING |
| `SchemaUtil.InferIgnoresCase` | hsim/schema_util.py:64-71 | upper-casing the comment does not change the inferred type |
| `SchemaUtil.InferNumberExample` | tests/test_schema_util.py:47-49 | "Number indicating..." is NUMERIC |
| `SchemaUtil.InferNumericExample` | tests/test_schema_util.py:50-51 | "Numeric indicator of..." is NUMERIC |
| `SchemaUtil.InferStringExample` | tests/test_schema_util.py:52-53 | "Age of patient" is STRING |
| `SchemaUtil.ResolveDisplayNames` | hsim/schema_util.py:41-47 | succeeds exactly when every referenced key is in the graph, giving their display names in reference order; otherwise fails on the first missing key |
| `SchemaUtil.ExtractObjectDetails` | hsim/schema_util.py:34-52 | succeeds exactly when the key and all its option keys are in the graph; the object has the node's id, the stripped name and comment, one option per reference, and is LIST exactly when it has options |
| `SchemaUtil.TemplateKeys` | hsim/schema_util.py:80-82 | the kept dependencies are exactly the declared ones other than `bts:component`, never more of them than declared |
| `SchemaUtil.TemplateKeysSingle` | hsim/schema_util.py:80-82 | a single reference is kept exactly when it is not `bts:component` |
| `SchemaUtil.TemplateKeysConcat` | hsim/schema_util.py:80-84 | the filter goes reference by reference: the kept keys of two runs of references are those of the first followed by those of the second, so declared order and repeats are kept |
| `SchemaUtil.ResolveFields` | hsim/schema_util.py:80-84 | succeeds exactly when every kept key resolves, giving one object per key in order |
| `SchemaUtil.ExtractTemplate` | hsim/schema_util.py:75-85 | fails on an unknown key or a node without dependencies; otherwise succeeds exactly when every kept dependency resolves, with one well-typed object per kept dependency in declared order (the order `TemplateKeysConcat` states) |
| `SchemaUtil.TemplateFollowsDependencies` | hsim/schema_util.py:77-85 | on a graph keyed by node id, the template's field ids are the kept dependencies in order |
| `SchemaUtil.MissingFieldFailsTemplate` | hsim/schema_util.py:80-83 | a dependency missing from the graph is a failure, not a skip |
| `SchemaUtil.GenerateSimulatedData` | hsim/schema_util.py:88-108 | numbers in [0, 100]; the three identity fields return the record's id; `bts:HTANParentID` returns the parent or null; other strings are `lorem_ipsum_` followed by digits; list values are among the options |
| `SchemaUtil.SimulateRow` | hsim/schema_util.py:127-130 | one value per field, the k-th synthesized from the k-th field and draw |
| `SchemaUtil.GetFrontEndSimulatedValues` | hsim/schema_util.py:124-130 | fails exactly when the template does; otherwise one value per template field in order, identity fields holding the id, list values among the options, numbers in [0, 100] |
| `SchemaUtil.ToFrontEndFields` | hsim/schema_util.py:114-120 | one field description per object, in order, carrying its id, display name and comment |
| `SchemaUtil.GetFrontEndSchema` | hsim/schema_util.py:111-121 | fails exactly when the template does; otherwise one entry per template field in template order |
| `SchemaUtil.FrontEndAligned` | hsim/schema_util.py:111-130 | the schema and a simulated row have the same length, and position k of both comes from template field k |
| `SchemaUtil.GetLabel` | hsim/schema_util.py:133-136 | the node's label when the key is in the graph, a key failure otherwise |
| `JsonReader.PositionIndex` | hsim/json_reader.py:51-56 | the index holds exactly the listed ids, each mapped to its last position |
| `JsonReader.PositionIndexInverts` | hsim/json_reader.py:51-56 | with distinct ids, the id at position k is indexed at k |
| `JsonReader.LoadSchema` | hsim/json_reader.py:42-57 | one index per distinct schema name, and no other |
| `JsonReader.LoadSchemaLast` | hsim/json_reader.py:46-57 | a name's index is that of the last schema with that name |
| `JsonReader.GetIndex` | hsim/json_reader.py:36-40 | succeeds exactly when the list and the attribute are indexed, with the stored column; otherwise names what is missing |
| `JsonReader.GetIndexOfLoaded` | hsim/json_reader.py:36-57 | on a loaded index, the lookup succeeds exactly when the last schema of that name lists the attribute, and gives its last position there |
| `JsonReader.RecordList` | hsim/json_reader.py:81 | the atlas's record list when the list and its `record_list` exist, a key failure naming the list otherwise |
| `JsonReader.Column` | hsim/json_reader.py:66-69 | succeeds exactly when every record reaches the column; one value per record, in record order |
| `JsonReader.ExtractSampleIds` | hsim/json_reader.py:59-70 | the biospecimen id column of the atlas's Biospecimen records, one per record in order; otherwise the failure of the first step that fails: the column lookup, then the list, then a short record |
| `JsonReader.MessageRoundTrip` | hsim/json_reader.py:85-87 | the offending id's text can be read back from its message, which has no trailing period |
| `JsonReader.CheckRecords` | hsim/json_reader.py:82-88 | every message is that of a record whose parent id is not a sample id, and every such record has its message |
| `JsonReader.CheckRecordsEmptyIff` | hsim/json_reader.py:84 | no message exactly when every parent id is a sample id |
| `JsonReader.CheckRecordsInOrder` | hsim/json_reader.py:82-88 | the messages follow the dangling records one for one in record order, so their number is the number of dangling records |
| `JsonReader.CheckAtlas` | hsim/json_reader.py:80-88 | an atlas is checked against its own sample ids; it fails exactly when its ids, its list or a record cannot be read |
| `JsonReader.CheckAtlases` | hsim/json_reader.py:79-88 | succeeds exactly when every atlas is readable; a failure is that of some atlas |
| `JsonReader.CheckAtlasesConcat` | hsim/json_reader.py:79-88 | the messages of two runs of atlases are those of the first followed by those of the second |
| `JsonReader.GatherConcat` | hsim/json_reader.py:79-88 | running the atlas loop over two runs of steps stops at the first run's failure if any, else the second's, else joins their messages in order |
| `JsonReader.CheckAtlasesGathers` | hsim/json_reader.py:79-88 | the atlas loop is the in-order gathering of the per-atlas checks: the first failure, or all messages joined |
| `JsonReader.CheckAtlasesEmptyIff` | hsim/json_reader.py:79-88 | no message exactly when every atlas's links hold within that atlas |
| `JsonReader.CheckAtlasesCovers` | hsim/json_reader.py:79-88 | every message of one atlas is among the messages of all atlases |
| `JsonReader.CheckAtlasesSound` | hsim/json_reader.py:79-88 | every message comes from some atlas |
| `JsonReader.CheckAssayLinks` | hsim/json_reader.py:72-88 | the parent id column is looked up before any atlas, and its failure is the result; otherwise succeeds exactly when every atlas is readable |
| `JsonReader.OpenReader` | hsim/json_reader.py:9-15 | the reader keeps the document and its schema index, and its errors are exactly those of the `ScRNA-seqLevel1` check, which start from an empty list |
| `JsonReader.OpenedReaderState` | hsim/json_reader.py:29-34 | the number of atlases is that of the document, and the index covers its schema names |
| `JsonReader.NoAtlasesNoErrors` | hsim/json_reader.py:76-80 | with no atlases the reader opens exactly when the assay schema has the parent id attribute, and then reports nothing |
| `JsonReader.ErrorListEmptyIff` | hsim/json_reader.py:23-27 | the error list is empty exactly when every atlas's assay records link to that atlas's biospecimens |
| `JsonReader.ErrorsCoverDanglingLinks` | hsim/json_reader.py:82-88 | every parent id missing from its own atlas's biospecimens is reported |
| `JsonReader.ErrorsAreDanglingLinks` | hsim/json_reader.py:84-87 | every reported error is the message of a record whose parent id is missing from its own atlas's biospecimens |
| `Alignment.SingleSchemaColumn` | hsim/json_reader.py:36-57 | an index loaded from a single schema finds an attribute exactly when the schema lists it, at its last position |
| `Alignment.ReaderFindsOwnId` | hsim/schema_util.py:96-101 | indexing a simulated row by its own front-end schema finds an identity attribute exactly when the schema lists it, and the value in that column is the record's id |

## Left out

- `load_htan_schema` and the file open and `json.load` in the reader's
  constructor: file I/O and JSON parsing. The model starts from the
  already-built graph and document.
- `hsim/cli.py`: command wiring, hard-coded atlas and template constants,
  and JSON output.
- `hsim/__init__.py`: a version import only.
- The pseudo-random generator. Each `random.randint` result is an argument
  kept in the call's inclusive range: [0, 100], [0, 100000], and
  [0, len(options) - 1].
- `SchemaUtil.GenerateSimulatedData`: a LIST field with no options makes
  Python's `randint(0, -1)` raise `ValueError`. The precondition excludes
  that case. `ExtractObjectDetails` never builds such a field (its result is
  LIST exactly when it has options).
- `SchemaUtil.GenerateSimulatedData`: the exact placeholder number and list
  index are not promised, only their shape and membership. The PRNG that
  picks them is not modelled.
- `PyStr.Lower`: only ASCII letters are lower-cased. Non-ASCII case mappings
  cannot create or hide the ASCII words "number" and "numeric".
- JSON floats, booleans, arrays and objects as record values are not
  modelled. A value is a string, an integer or null, which is what the
  simulator writes.
- Missing node fields other than the two optional lists are not modelled
  (`@id`, `sms:displayName`, `rdfs:comment`, `rdfs:label`). Neither are a
  missing `data_schema`, `attributes` or attribute `id` in a reader schema,
  nor a missing top-level `atlases` or `schemas`. All of these are
  `KeyError`s in Python, on inputs the simulator always fills in.
- Schema and dependency references are modelled as key strings, not as
  `{"@id": key}` objects.
- `get_doc`: returns the stored document, which `JsonReader.Reader` keeps as
  `doc`.
- The constructor's partial error list is not modelled. When the check
  raises, no reader exists, so the list is never observed.
- Counts are Python integers. A negative count makes `range` empty, which
  `IdUtil.RangeLength` models.
