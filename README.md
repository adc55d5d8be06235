# USDM study-definition tools, modelled in Dafny

This project models the core of the USDM Study Digitization Architect
scripts. They work on a parsed USDM v4.0.0 study-definition document, i.e. a
JSON tree. The model has three parts:

- **Navigation and lookup helpers** (`scripts/usdm_utils.py`). These find
  the first version and design of the study. They order objects that are
  chained by `previousId`/`nextId` pointers. They also search titles,
  identifiers, organizations and eligibility criteria, each search with its
  fixed fallback.
- **The structural and referential validator** (`scripts/usdm_validator.py`).
  - A findings accumulator whose verdict depends on its error list only.
  - An index of every `id` to its path, and the `*Id`/`*Ids` references.
  - Three recursive per-object checks, and a sanity check for linked lists.
  - The orchestration `validate_study`: early exits, legacy-field
    warnings, and broken-reference reporting capped at twenty.
- **The SDTM Trial Design generators** (`scripts/sdtm_trial_design_generator.py`).
  - `make_code`.
  - The TA, TE, TI, TV and TS datasets, each as a list of row records.

JSON is the datatype `Json.Json`. An object is a sequence of key/value pairs
in insertion order. That order decides the traversal order and which path
an `id` keeps.

Each imperative source function is a `method` proved equal to a
specification function, and the promised properties are lemmas about that
function:
- `sort_linked_list` is modelled this way.
- So is every `validate_*` check: the class `ValidationResult` holds the
  three message lists, and each check `modifies` it.
- So is every `generate_*` function. Their loops and counters are kept.

The validator's docstring lists "Linked-list integrity (previousId/nextId)"
among its checks (`scripts/usdm_validator.py:15`). The code at lines 147-172
checks two things only: that some item has a null `previousId`, and that
every truthy pointer names an id in the list. It does not check that the
pointers agree in both directions, that the chain has no cycle, or that
every item is reachable from the head. `UsdmValidator.CycleUndetected`
exhibits a two-item cycle that passes the check.

Python exceptions are modelled as follows:
- Where a generator or `get_version_and_design` raises, the result is `None`.
- A Quantity value that `int()` cannot convert also gives `None`.
- Where the validator or `sort_linked_list` subscripts `item["id"]`, the
  presence of `id` is a precondition.

## Model

| member | source | states |
|---|---|---|
| UsdmUtils.GetVersionAndDesign | scripts/usdm_utils.py:13-27 | defined exactly when `study`, `versions`, a first version, its `studyDesigns` and a first design exist; then the first version and the first design |
| UsdmUtils.GetVersionAndDesignArrays | scripts/usdm_utils.py:13-27 | non-empty `versions` and `studyDesigns` arrays give their first elements |
| UsdmUtils.SortLinked | scripts/usdm_utils.py:30-67 | `[]` gives `[]`; with no null or missing `previousId` the input comes back unchanged; otherwise the output starts with the last head in input order |
| UsdmUtils.SortLinkedList | scripts/usdm_utils.py:30-67 | the imperative sort (index, head search, walk, closing loop) computes `SortLinked` |
| UsdmUtils.IndexById | scripts/usdm_utils.py:40 | the `by_id` loop builds `ById`, in which a later duplicate id wins |
| UsdmUtils.ByIdKeys | scripts/usdm_utils.py:40 | a key is indexed iff some item has that id |
| UsdmUtils.ByIdValues | scripts/usdm_utils.py:40 | every indexed value is an input item |
| UsdmUtils.FindHead | scripts/usdm_utils.py:44-51 | the head loop finds the last item with a null or missing `previousId` |
| UsdmUtils.LastHead | scripts/usdm_utils.py:44-48 | the index found is a head, and no later item is one; none is found iff no item is a head |
| UsdmUtils.WalkFrom | scripts/usdm_utils.py:53-60 | the `while` loop produces the walk from the head, and `visited` holds exactly the ids walked |
| UsdmUtils.AppendUnvisited | scripts/usdm_utils.py:62-65 | the closing loop appends the unvisited items in input order |
| UsdmUtils.WalkedChain | scripts/usdm_utils.py:53-60 | in the walked prefix each item's id is the previous item's truthy `nextId`; ids are pairwise distinct; the walk ends at a falsy, unknown or visited `nextId` |
| UsdmUtils.FollowStops | scripts/usdm_utils.py:56-60 | the walk stops exactly at a falsy pointer, an unknown id or a visited id |
| UsdmUtils.FollowFresh | scripts/usdm_utils.py:56-60 | walked items are indexed items with fresh, pairwise distinct ids, so the walk terminates on cycles |
| UsdmUtils.WalkedFromItems | scripts/usdm_utils.py:53-60 | every walked item is an input item |
| UsdmUtils.SortLinkedTail | scripts/usdm_utils.py:53-67 | with a head, the output begins with the walk; after it come only items the walk did not reach; every unreached item appears there; two unreached items keep their input order |
| UsdmUtils.UnvisitedTail | scripts/usdm_utils.py:62-65 | after any prefix, the closing loop's items are exactly the unvisited items, all of them, in input order |
| UsdmUtils.UnvisitedIndexed | scripts/usdm_utils.py:62-65 | the appended items sit at strictly ascending input positions, and a position is taken iff its item's id is unvisited |
| UsdmUtils.SortLinkedPermutation | scripts/usdm_utils.py:30-67 | with unique ids, the output is a permutation (same multiset) of the input |
| UsdmUtils.ResolveOrganization | scripts/usdm_utils.py:70-75 | found iff some organization's `id` equals the scope id, and then it is the first such organization |
| UsdmUtils.FirstScoped | scripts/usdm_utils.py:105-112 | the first study identifier whose scope resolves to a truthy organization whose type decode is accepted, and none iff no identifier qualifies |
| UsdmUtils.GetStudyTitle | scripts/usdm_utils.py:78-91 | the text of the first title whose type decode contains the wanted type (case-insensitively); otherwise the first title's text, else `""` |
| UsdmUtils.GetStudyId | scripts/usdm_utils.py:94-117 | the text of the first identifier scoped to an organization of the wanted type; otherwise the first identifier's text (default `"UNKNOWN"`), else `"UNKNOWN"` |
| UsdmUtils.GetSponsorInfo | scripts/usdm_utils.py:120-136 | name and protocol number from the first identifier scoped to a drug company or sponsor; otherwise both `"TBD"` |
| UsdmUtils.GetRegistryId | scripts/usdm_utils.py:139-149 | the text of the first identifier scoped to a registry, otherwise `""` |
| UsdmUtils.OwnCriterionText | scripts/usdm_utils.py:176-180 | the first truthy value among `description`, `label` and `name`, else the name default `""` |
| UsdmUtils.GetCriterionText | scripts/usdm_utils.py:152-180 | the cleaned text of the first item with the criterion's `criterionItemId` and truthy text; without one, the criterion's own fallback |
| UsdmUtils.QuantityText | scripts/usdm_utils.py:190-192 | an integer Quantity value is written in decimal |
| UsdmUtils.GetEnrollmentNumber | scripts/usdm_utils.py:183-200 | `"TBD"` without a population; otherwise `maxValue` if not null, else `minValue` if not null, else `"TBD"` |
| PyText.Pad2Injective | scripts/sdtm_trial_design_generator.py:124-129 | the `02d` format is one-to-one on positive numbers |
| ValidationResults.ValidationResult.constructor | scripts/usdm_validator.py:32-35 | the three lists start empty |
| ValidationResults.ValidationResult.Error | scripts/usdm_validator.py:37-38 | appends one `"ERROR: "` message and leaves the other lists alone; the result is then invalid |
| ValidationResults.ValidationResult.Warning | scripts/usdm_validator.py:40-41 | appends one `"WARNING: "` message; nothing else changes, the verdict included |
| ValidationResults.ValidationResult.AddInfo | scripts/usdm_validator.py:43-44 | appends one `"INFO: "` message; nothing else changes, the verdict included |
| ValidationResults.ValidationResult.IsValid | scripts/usdm_validator.py:46-48 | holds iff no error was recorded; warnings and info never change it |
| ValidationResults.KindsDistinct | scripts/usdm_validator.py:37-44 | the three prefixes keep errors, warnings and info apart |
| UsdmValidator.CollectIds | scripts/usdm_validator.py:76-87 | the recursion builds the index of every object with a non-null `id` over the visiting order, the later path winning |
| UsdmValidator.IdIndexLast | scripts/usdm_validator.py:76-87 | an id is indexed iff a visited object has it, and its path is that of the last such object |
| UsdmValidator.CollectReferences | scripts/usdm_validator.py:90-106 | the recursion produces the references in traversal order, not descending into consumed values |
| UsdmValidator.RefsAreValues | scripts/usdm_validator.py:90-106 | every reference is a string value visited at exactly its reported path |
| UsdmValidator.OwnRefReported | scripts/usdm_validator.py:95-96 | a string under a key ending in `Id` (other than `id`) is reported at `path.key` |
| UsdmValidator.ConsumedListNotSearched | scripts/usdm_validator.py:97-102 | a value consumed as an `Ids` list is not searched for further references |
| UsdmValidator.ValidateInstanceTypes | scripts/usdm_validator.py:109-118 | appends, in visiting order, one warning per object with an `id` key and no `instanceType`; errors and info unchanged |
| UsdmValidator.InstanceTypeReported | scripts/usdm_validator.py:109-118 | the warning for path `q` is present iff the object visited at `q` has an `id` key (even null) and no `instanceType` |
| UsdmValidator.ValidateExtensionAttributes | scripts/usdm_validator.py:121-130 | appends one warning per object with a non-null `id` and no `extensionAttributes` |
| UsdmValidator.ExtensionAttributesReported | scripts/usdm_validator.py:121-130 | the warning for path `q` is present iff the object visited at `q` has a non-null `id` and no `extensionAttributes` |
| UsdmValidator.NullIdDiffers | scripts/usdm_validator.py:109-130 | a null `id` draws the instanceType warning but not the extensionAttributes one |
| UsdmValidator.ValidateCodeObjects | scripts/usdm_validator.py:133-144 | appends one error per missing or falsy `code`/`codeSystem`/`decode` of every Code object |
| UsdmValidator.CodeObjectsComplete | scripts/usdm_validator.py:133-144 | no Code error iff every Code object has truthy `code`, `codeSystem` and `decode` |
| UsdmValidator.MissingFieldsEmpty | scripts/usdm_validator.py:137-139 | no field error iff no listed field is missing or falsy |
| UsdmValidator.ValidateLinkedList | scripts/usdm_validator.py:147-172 | appends the head warning and the dangling-pointer errors; info unchanged |
| UsdmValidator.LinkedListWarningOnce | scripts/usdm_validator.py:149-164 | at most one warning, present iff the list uses links and no item has a null or missing `previousId`; several heads draw nothing |
| UsdmValidator.LinkedListErrorsEmpty | scripts/usdm_validator.py:149-172 | no error iff the list is empty, uses no links, or every truthy pointer names an id in the list |
| UsdmValidator.DanglingErrorsEmpty | scripts/usdm_validator.py:166-172 | no dangling error iff every truthy `nextId` and `previousId` resolves |
| UsdmValidator.ReportMissingFields | scripts/usdm_validator.py:137-139 | the field loop appends `MissingFields` for `code`, `codeSystem`, `decode`, in that order |
| UsdmValidator.ReportDangling | scripts/usdm_validator.py:166-172 | the pointer loop appends every item's dangling-pointer errors, item by item |
| UsdmValidator.ReportPointers | scripts/usdm_validator.py:167-172 | one item: the `nextId` error, then the `previousId` error, each iff the pointer is truthy and not an id of the list |
| UsdmValidator.CycleUndetected | scripts/usdm_validator.py:147-172 | a two-item cycle with one head draws no warning and no error |
| UsdmValidator.Heads | scripts/usdm_validator.py:159 | no heads iff no item has a null or missing `previousId` |
| StudyValidation.ValidateStudy | scripts/usdm_validator.py:175-406 | the step-by-step run records exactly the errors, warnings and info of `StudyReport` |
| StudyValidation.NoStudyReport | scripts/usdm_validator.py:180-195 | without `study`: the envelope warnings and the one error `Missing root 'study' object` |
| StudyValidation.NoVersionsReport | scripts/usdm_validator.py:197-206 | without versions: the type error, if any, then the one `versions` error |
| StudyValidation.NoDesignsReport | scripts/usdm_validator.py:209-242 | without designs: the version warnings, then the one `studyDesigns` error |
| StudyValidation.BrokenReferenceBlock | scripts/usdm_validator.py:246-404 | in a run that reaches the designs, the errors are the study type error and all design errors, then the capped broken-reference block (each listed reference in order, then the summary line), then the Code errors |
| StudyValidation.PassingCharacterized | scripts/usdm_validator.py:175-406 | no error iff the study exists with `instanceType` `Study`, has a version with designs, no design linked list has a dangling pointer, every reference resolves, and every Code object is complete |
| StudyValidation.PassingReferencesResolve | scripts/usdm_validator.py:384-395 | in a passing run every reference names the non-null `id` of some visited object |
| StudyValidation.OrphanErrorsCapped | scripts/usdm_validator.py:388-393 | with n broken references: min(n, 20) listed errors, the first ones in order, plus one summary error iff n > 20; none iff n = 0 |
| StudyValidation.BrokenReferencesListed | scripts/usdm_validator.py:390-391 | one `Broken reference` error per listed reference, in order |
| StudyValidation.InfoOnlyWhenAllResolve | scripts/usdm_validator.py:394-395 | the cross-reference info message is recorded, once, iff designs exist and no reference is broken |
| StudyValidation.AllDesignErrorsEmpty | scripts/usdm_validator.py:246-374 | the designs add no error iff no design does |
| StudyValidation.Primary | scripts/usdm_validator.py:323-327 | no primary objective iff no objective's level decode contains `primary` |
| StudyValidation.Orphans | scripts/usdm_validator.py:388 | exactly the references whose id is not indexed, in order |
| StudyValidation.CheckEnvelope | scripts/usdm_validator.py:180-190 | appends the `usdmVersion` and `systemName` warnings |
| StudyValidation.CheckVersion | scripts/usdm_validator.py:211-231 | appends the identifier and title warnings |
| StudyValidation.CheckIdentifiers | scripts/usdm_validator.py:218-222 | appends the two legacy-field warnings per identifier, in order |
| StudyValidation.CheckDesigns | scripts/usdm_validator.py:246-374 | appends every design's warnings and errors, design by design |
| StudyValidation.CheckDesign | scripts/usdm_validator.py:247-370 | appends one design's warnings in source order, and its linked-list errors |
| StudyValidation.CheckDesignType | scripts/usdm_validator.py:248-255 | warns on `StudyDesign`, or on a type not containing `StudyDesign` |
| StudyValidation.CheckArms | scripts/usdm_validator.py:258-266 | the legacy `studyArms`, no-arms and `armType` warnings |
| StudyValidation.CheckEpochs | scripts/usdm_validator.py:269-281 | the legacy and empty-epoch warnings, the epoch linked-list check and the `sequenceNumber` warning |
| StudyValidation.AnySequenced | scripts/usdm_validator.py:280 | `any("sequenceNumber" in e ...)` |
| StudyValidation.CheckLegacyFields | scripts/usdm_validator.py:284-306 | the `studyElements`, `interventionModel`, `trialIntentTypes` and `trialTypes` warnings |
| StudyValidation.CheckEncounters | scripts/usdm_validator.py:309-319 | the encounter and activity linked-list checks and the `encounterType` warnings |
| StudyValidation.PrimaryObjectives | scripts/usdm_validator.py:323-324 | the comprehension collects the primary objectives |
| StudyValidation.CheckObjectives | scripts/usdm_validator.py:322-336 | the no-primary, design-level `endpoints` and `endpointIds` warnings |
| StudyValidation.CheckEndpointIds | scripts/usdm_validator.py:334-336 | one warning per objective with truthy `endpointIds` |
| StudyValidation.CheckPopulation | scripts/usdm_validator.py:343-350 | the legacy `populations` and no-population warnings |
| StudyValidation.CheckCriteria | scripts/usdm_validator.py:353-370 | the inline-text criterion warnings and the `studyInterventions` warning |
| StudyValidation.CheckInlineText | scripts/usdm_validator.py:362-364 | one warning per criterion with truthy `text` and falsy `criterionItemId` |
| StudyValidation.CheckContents | scripts/usdm_validator.py:246-404 | the design loop, then the document-wide checks |
| StudyValidation.CheckDocument | scripts/usdm_validator.py:384-404 | the capped broken-reference errors, the cross-reference info and the three traversals' findings |
| StudyValidation.FindOrphans | scripts/usdm_validator.py:388 | the comprehension computes `Orphans` |
| StudyValidation.ReportOrphans | scripts/usdm_validator.py:388-395 | the capped loop records `OrphanErrors`, or the info message when nothing is broken |
| SdtmTrialDesign.MakeCodeShape | scripts/sdtm_trial_design_generator.py:45-47 | a code is at most `max_len` long, has no space, `-`, `/` or lower-case letter, and is the whole squeezed upper-case name when that fits |
| SdtmTrialDesign.MakeCodeIdempotent | scripts/sdtm_trial_design_generator.py:45-47 | making a code of a code gives the same code |
| SdtmTrialDesign.MatchingCells | scripts/sdtm_trial_design_generator.py:64-67 | a cell is kept iff its `armId` and `epochId` match |
| SdtmTrialDesign.GenerateTa | scripts/sdtm_trial_design_generator.py:50-87 | the nested loops compute `TaTable`: arm by arm, epochs in linked order, matching cells, element ids; `None` where an id is missing |
| SdtmTrialDesign.EmitArm | scripts/sdtm_trial_design_generator.py:59-85 | one arm's rows with `taetord` counted from 0 |
| SdtmTrialDesign.EmitCells | scripts/sdtm_trial_design_generator.py:68-85 | the rows of an epoch's matching cells continue the arm's count |
| SdtmTrialDesign.EmitElements | scripts/sdtm_trial_design_generator.py:69-85 | one row per element id, `taetord` incremented before each |
| SdtmTrialDesign.SlotRowsNumbered | scripts/sdtm_trial_design_generator.py:69-83 | an arm's k-th row is its k-th (epoch, element) slot with TAETORD k + 1 |
| SdtmTrialDesign.TaetordRestarts | scripts/sdtm_trial_design_generator.py:59-85 | each arm's rows form one block after the earlier arms' rows, and TAETORD runs 1, 2, 3, … within it |
| SdtmTrialDesign.ArmRowCount | scripts/sdtm_trial_design_generator.py:62-71 | an arm has one row per element id of its matching cells, summed over the epochs |
| SdtmTrialDesign.TaElementsListedInTe | scripts/sdtm_trial_design_generator.py:56-97 | every TA row's ETCD and ELEMENT are those of a TE row, or both blank for an unknown element id |
| SdtmTrialDesign.GenerateTe | scripts/sdtm_trial_design_generator.py:90-109 | the loop computes `TeTable`: one row per element, ETCD = `make_code(name, 8)` |
| SdtmTrialDesign.GenerateTi | scripts/sdtm_trial_design_generator.py:112-149 | the loop with the two counters computes `TiTable` |
| SdtmTrialDesign.TiRowsShape | scripts/sdtm_trial_design_generator.py:120-147 | one row per criterion, in order, numbered within its own kind |
| SdtmTrialDesign.CountsCover | scripts/sdtm_trial_design_generator.py:120-129 | the inclusion and exclusion counts sum to the number of criteria |
| SdtmTrialDesign.TiCodesDistinct | scripts/sdtm_trial_design_generator.py:120-129 | no two rows share an IETESTCD |
| SdtmTrialDesign.GenerateTv | scripts/sdtm_trial_design_generator.py:152-173 | the `enumerate` loop computes `TvTable` |
| SdtmTrialDesign.TvVisitsEveryEncounter | scripts/sdtm_trial_design_generator.py:157-171 | with unique ids: one visit per encounter, VISITNUM 1..n in linked order, every encounter named, the head first |
| SdtmTrialDesign.GenerateTs | scripts/sdtm_trial_design_generator.py:176-236 | the `enumerate` loop computes `TsTable`; `None` when the enrollment does not convert |
| SdtmTrialDesign.TsSummary | scripts/sdtm_trial_design_generator.py:208-234 | nine rows, TSSEQ 1..9 in the fixed parameter order; NARMS is the arm count; RANDOM is `Y` iff more than one arm |

## Left out

- `load_usdm`, the `main` functions, argument parsing, file I/O, printing and exit codes: these are I/O.
- `ValidationResult.summary`: it is report formatting only.
- The pandas `DataFrame` around the generated rows: the rows are modelled as records with every column.
- The M11 document generator: it renders through a word-processing library.
- `by_prev` in `sort_linked_list`: it is computed but never read.
- Wrong-kind values are read leniently. A `.get` or `.lower()` applied to a value of the wrong JSON kind raises `AttributeError` in Python, and `in` raises `TypeError` on a number, a boolean or null. The model instead reads:
  - a non-object as having no fields;
  - a non-string as `""`;
  - a non-list as `[]`.
- Key tests on strings and lists: Python's `in` answers a substring test on a string and a membership test on a list. The model's key test `HasKey` is false on anything but an object. The warnings then diverge. For example, the identifier list `["studyIdentifier"]` draws the legacy-field warning in Python (`scripts/usdm_validator.py:219-220`) and none in the model. The same holds for the `armType` (265), `sequenceNumber` (280) and `encounterType` (313) tests, for `has_linked` (153), and for `"StudyDesign" in instance_type` (252) when `instanceType` is a list.
- Python's `len` of a non-list value (for `NARMS` and the arm and epoch counts) reads as 0, for the same reason.
- Case mapping and `make_code`'s upper-casing are ASCII only. Python's Unicode case mapping is not modelled.
- Equality between JSON values is structural. Python's `1 == True`, order-insensitive dict equality and floating-point numbers are not modelled.
- An unhashable `id` or pointer (an object or a list) used as a dict key raises `TypeError` in Python. The model indexes it like any other value.
- `str()` of a non-string value (in messages and in `get_enrollment_number`) uses a simplified `repr`, without string escaping.
- UsdmUtils.GetCriterionText: the regular-expression tag stripping and `strip()` are the parameter `clean`, because `re` is a foreign library.
- UsdmUtils.QuantityText: `int()` is modelled on integer and boolean values only. A float or a numeric string gives `None`, where Python would truncate or parse.
- UsdmUtils.SortLinkedList: requires every item to carry an `id`. Python raises `KeyError` otherwise.
- UsdmValidator.ValidateLinkedList: requires every item of a linked list to carry an `id`. Python raises `KeyError` otherwise.
- StudyValidation.ValidateStudy: requires the design lists it checks as linked lists to carry `id`s. Python raises `KeyError` otherwise.
- StudyValidation.ValidateStudy: exceptions raised while building the informational messages that are not modelled are not modelled either. The model returns a full report where Python stops. An example is `', '.join(title_types)` (`scripts/usdm_validator.py:230-231`), which raises `TypeError` when a title's type `decode` is not a string (e.g. null). Another is the `.get` chains at lines 230 and 298 on a non-object `type` or `model`.
- StudyValidation.ValidateStudy: of the informational messages, only the cross-reference one (`All n cross-references are valid`) is recorded. The others are counts and echoes of document values. Errors and warnings are modelled in full.
