# vSphere permission-fault capture, modelled in Dafny

A mitmproxy add-on that watches vSphere SOAP traffic for `NoPermissionFault`
responses. For every response it:

1. decides whether the response is a permission fault: a non-200 status whose
   body parses as XML and has `soapenv:Body/soapenv:Fault/detail/vim25:NoPermissionFault`
   under its root element;
2. extracts the faulting object's `type` attribute and name and the missing
   privilege, or gives up (`None`) when either element is missing;
3. builds the record (UserAgent, ObjectType, ObjectName, PrivilegeMissing), hides it
   when duplicates are hidden and the record was written before, and otherwise
   appends the flow to the dump sink, one row to the CSV sink and the record to
   the seen cache.

An earlier variant of the add-on repeats the detector inline and dumps every
detected fault without extraction or deduplication; its other writer methods are stubs.

Files:

- `wrappers.dfy`: `Option`, standing for Python's value-or-`None`.
- `element_tree.dfy`: the parsed document (elements with expanded names,
  attributes, optional text and ordered children) and ElementTree's `find` over a
  path of child steps, evaluated as ElementPath does it: each step replaces the
  selection by the matching children of each selected element in turn, and `find`
  returns the first element of the final selection. `Reaches` is an independent
  definition (a chain of children with the given tags) that the lemmas tie `find` to.
- `fault_detector.dfy`: the `namespaces` table, the detector, the extractor, and the
  unit-test fixtures `LEGIT_FAULT` and `OTHER_XML` as the trees ElementTree builds.
- `http_flow.dfy`: the parts of a flow the add-ons read.
- `permission_writer.dfy`: the `Writer` add-on as a class whose methods are proved
  against the pure state transition `ResponseStep`, and the lemmas about it.
- `legacy_addon.dfy`: the earlier add-on.

Parsing is a library call, so every operation that parses takes the parser as a
parameter `parse: Body -> Option<Element>`, with `None` for `ParseError`. The
detector and the extractor get the same parser, so one body parses the same way
for both. Names are expanded names (URI and local name). A document's namespace
prefixes are therefore invisible, and matching is by URI. The `detail` step has no
namespace. Children of `NoPermissionFault` declared with `xmlns="urn:vim25"` are in
`urn:vim25`.

The CSV sink receives no header row: `running` creates the `DictWriter` but never
calls `writeheader`, and the model follows that code.

## Model

| member | source | states |
|---|---|---|
| `ElementTree.Get` | dump_permission_failure.py:85 | `get("type")` yields the attribute's value when present and `None` when absent |
| `ElementTree.ChildStepMembers` | dump_permission_failure.py:61 | one path step selects exactly the children, with the step's expanded name, of the elements selected before |
| `ElementTree.SelectMembers` | dump_permission_failure.py:61 | an element is selected by a path iff it is reached from a start element by a chain of children whose tags are the path's steps |
| `ElementTree.SelectMeansReaches` | dump_permission_failure.py:61 | a path's selection is non-empty iff some start element has a chain of children along the path |
| `ElementTree.FindMeaning` | dump_permission_failure.py:61-65 | `find` (modelled by `ElementTree.Find`: the first element of the path's ordered selection, or `None`) returns an element iff the path leads somewhere from the root, and the element it returns is reached along the path |
| `ElementTree.SelectAppend` | dump_permission_failure.py:79-80 | extending a path by one step applies one more child step to the old path's selection |
| `ElementTree.ReachesPrefix` | dump_permission_failure.py:79-80 | whatever an extended path reaches is a correctly tagged child of something the shorter path reaches |
| `ElementTree.FindExtendedPath` | dump_permission_failure.py:79-80 | if `find` succeeds on an extended path it succeeds on the path it extends |
| `FaultDetector.Qualified` | dump_permission_failure.py:39-42 | a `prefix:local` step means the URI the `namespaces` table binds the prefix to (`soapenv`, `vim25`) |
| `FaultDetector.CheckSoapPermissionFaultBody` | dump_permission_failure.py:58-67 | a body on which `fromstring` raises `ParseError` gives False |
| `FaultDetector.BodyCheckMeaning` | dump_permission_failure.py:61-65 | a parsed body is a fault iff the root has a child chain soapenv:Body / soapenv:Fault / detail (no namespace) / vim25:NoPermissionFault, matched by URI |
| `FaultDetector.CheckSoapPermissionFault` | dump_permission_failure.py:51-54 | status 200 gives False whatever the body; any other status gives exactly the body check's result |
| `FaultDetector.GetCsvFieldsFromResponse` | dump_permission_failure.py:77-90 | a body that fails to parse gives `None`; a parsed one is handed to `FaultDetector.FieldsIn`, the two `find` calls and the dictionary of lines 79-88, whose meaning `ExtractionMeaning` states |
| `FaultDetector.ExtractionMeaning` | dump_permission_failure.py:79-88 | fields come back iff the body parses and both `vim25:object` and `vim25:privilegeId` are found under the fault path (never a partial record); they are the object's `type` attribute and text and the privilege's text, read off elements reached along those paths |
| `FaultDetector.ExtractionImpliesDetection` | dump_permission_failure.py:61-80 | a body the extractor yields fields for is one the body check calls a fault |
| `FaultDetector.RootTagIgnored` | dump_permission_failure.py:61 | renaming the root element changes neither the detection verdict nor the extracted fields |
| `FaultDetector.LegitFaultOutcome` | test.py:49-63 | `LEGIT_FAULT` is detected and yields Folder / group-v23485 / VirtualMachine.Interact.PowerOn |
| `FaultDetector.OtherFaultOutcome` | test.py:46-56 | the `ManagedObjectNotFoundFault` body is not detected and yields `None` |
| `FaultDetector.NotXmlOutcome` | test.py:52-66 | `"lol"`, which does not parse, is not detected and yields `None` |
| `FaultDetector.DetectedButNotExtracted` | dump_permission_failure.py:79-82 | a detected `NoPermissionFault` without `privilegeId` yields `None`, not a partial record |
| `PermissionWriter.CsvRow` | dump_permission_failure.py:168-170 | a CSV row has one cell per column of UserAgent, ObjectType, ObjectName, PrivilegeMissing (line 109), and cell `i` is the entry for column `i` of the dictionary `FieldsDict` that lines 84-87 and 157 build, `None` written as an empty cell |
| `PermissionWriter.ResponseUnchanged` | dump_permission_failure.py:145-162 | no fault, no extracted fields, or (with `show_dup` false) a record already in `seen_cache`: both sinks and the cache are unchanged |
| `PermissionWriter.ResponseAccepted` | dump_permission_failure.py:164-173 | otherwise each configured sink gets exactly one append (the flow; the record's row), unconfigured sinks stay unconfigured, the record joins the cache and `show_dup` is unchanged |
| `PermissionWriter.ResponseOnlyAppends` | dump_permission_failure.py:164-178 | a response only ever appends at the end of a sink and only ever adds to the cache |
| `PermissionWriter.RepeatSuppressed` | dump_permission_failure.py:159-162 | with `show_dup` false, delivering the same flow again changes nothing |
| `PermissionWriter.RepeatShown` | dump_permission_failure.py:159-173 | with `show_dup` true, a fault delivered twice gives two rows in a configured CSV sink and two flows in a configured dump sink |
| `PermissionWriter.RunWritesEachRecordOnce` | dump_permission_failure.py:151-183 | with `show_dup` false, over any sequence of responses the rows and flows written are exactly as many as the distinct records added to the cache |
| `PermissionWriter.RunCachesAcceptedRecords` | dump_permission_failure.py:151-178 | whatever `show_dup` says, after a run `seen_cache` holds exactly its old records plus the records of the run's faults with extractable fields |
| `PermissionWriter.RunWritesNewRecords` | dump_permission_failure.py:151-183 | with `show_dup` false, a run keeps what both sinks held and appends the same number of flows and rows; each new flow is a fault with fields and a user agent whose record was not in the cache, the matching new row is that record's row, and no two new flows have the same record |
| `PermissionWriter.RunWritesEachAcceptedRecordOnce` | dump_permission_failure.py:151-183 | with `show_dup` false, a run writes exactly one row and one flow for each record of its faults that the cache did not already hold: as many new entries as such records, each entry belonging to one of them (`RunWritesNewRecords`), no two to the same one |
| `PermissionWriter.SameFaultTwiceWrittenOnce` | dump_permission_failure.py:151-173 | a fault delivered twice to a fresh writer with both sinks and duplicates hidden leaves one row and one flow |
| `PermissionWriter.LegitFaultWrittenOnce` | dump_permission_failure.py:145-173 | a 403 with `LEGIT_FAULT` from test-agent/1.0, delivered twice, leaves the single row test-agent/1.0, Folder, group-v23485, VirtualMachine.Interact.PowerOn |
| `PermissionWriter.Writer.Running` | dump_permission_failure.py:104-111 | a sink exists for each option that names a file, `show_dup` is `vs_duplicates`, nothing is written and the cache is empty |
| `PermissionWriter.Writer.Response` | dump_permission_failure.py:145-149 | the new state is `ResponseStep` of the old: log the flow only when it is a permission fault |
| `PermissionWriter.Writer.LogFlow` | dump_permission_failure.py:151-173 | the new state is `LogFlowStep` of the old: extract, skip a hidden duplicate, append to each configured sink, cache the record |
| `PermissionWriter.Writer.CacheSave` | dump_permission_failure.py:175-178 | the record is added to `seen_cache` |
| `PermissionWriter.Writer.CacheCheck` | dump_permission_failure.py:180-183 | true iff the record is in `seen_cache` |
| `LegacyAddon.CheckSoapPermissionFault` | dump-permission-failure.py:40-55 | the result is `None` (never True) exactly for status 200 |
| `LegacyAddon.AgreesWithRefinedDetector` | dump-permission-failure.py:46-55 | for a non-200 status the inline check gives the refined body check's verdict (False on a parse error, True iff the fault path is found); read as a condition it agrees with the refined detector for every status |
| `LegacyAddon.LegacyWriter.Running` | dump-permission-failure.py:65-73 | a sink is assigned for each option that names a file; `only_unique` is never assigned |
| `LegacyAddon.LegacyWriter.Response` | dump-permission-failure.py:104-107 | a detected fault appends the flow to `flow_writer` once; otherwise nothing changes; the CSV sink is never touched |
| `LegacyAddon.LegacyWriter.LogFlow` | dump-permission-failure.py:109-116 | once `only_unique` and both sinks are assigned, the always-true gate and the stub writes leave the state unchanged; nothing ever assigns `only_unique`, so no writer `Running` builds reaches that point |
| `LegacyAddon.LegacyWriter.CheckUnique` | dump-permission-failure.py:118-119 | always True, so the `only_unique` gate never stops `_log_flow` |
| `LegacyAddon.LegacyWriter.WriteFlow` | dump-permission-failure.py:121-122 | a no-op |
| `LegacyAddon.LegacyWriter.WriteCsv` | dump-permission-failure.py:124-125 | a no-op |

## Left out

- `load`, option registration, `ctx.log` and the `ctx.master.shutdown` taken when `running` fails: host-runtime glue. `running` is kept only as the state it leaves behind (the `Running` constructors).
- `done`: it closes the open files. Files are not modelled, and `done` raises when a sink was never configured.
- Opening, flushing and closing files; the binary format of `io.FlowWriter`; the quoting `csv.DictWriter` applies. Sinks are sequences of flows and of rows. A `None` field is written as an empty cell, as `DictWriter` does.
- The XML tokenizer inside `ElementTree.fromstring`. It is the `parse` parameter, whose only contract is to return a tree or `None` (`None` for `ParseError`). In the fixtures' trees, whitespace-only text between elements is left as `None`; no path reads it.
- Exceptions `fromstring` raises other than `ParseError`, which pass the `except ElementTree.ParseError` clauses (dump_permission_failure.py lines 66 and 89, dump-permission-failure.py line 54) and escape `response`: `LookupError` for an unknown declared encoding, `ValueError` for a multi-byte declared encoding, `TypeError` for absent content. The `Parser` type has no such outcome, so the model assumes every body either parses or raises `ParseError`.
- ElementTree's path language beyond plain child steps (wildcards, predicates, `..`, `//`): the add-ons use only plain child steps.
- The cache key: the source renders the field dict with `str(dict)`. The model keys the cache by the four-field record instead. Every dict is built in the same insertion order, so the string and the record identify the same records.
- `seen_cache` is a class attribute shared by all `Writer` instances. It is modelled as a field of the one instance.
- A missing `user-agent` header raises `KeyError`. This is a precondition (`UserAgentKnown`, `ResponseDefined`). Headers are a map keyed by lower-case name. mitmproxy's case-insensitive, multi-valued header lookup is not modelled.
- The earlier add-on's reads of attributes that were never assigned raise `AttributeError`: `flow_writer` in `response`, and `only_unique` and both sinks in `_log_flow`. These are preconditions.
- A flow without a response (`flow.response` is `None`): the response event always carries one.
- Concurrency: callbacks are taken to run one at a time.
- FaultDetector.GetCsvFieldsFromResponse: its own contract states only the parse-error case. When fields come back, and what they are, is stated by `ExtractionMeaning`.
- FaultDetector.ExtractionMeaning: says the fields are read off an object and a privilege element reached along their paths. It does not say these are the first such elements in document order. That is how `Find` is defined, as the first element of the ordered selection.
- FaultDetector.CheckSoapPermissionFaultBody: its own contract states only the parse-error case. The rest is stated by `BodyCheckMeaning`.
