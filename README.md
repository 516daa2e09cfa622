# geolink2oereb in Dafny

geolink2oereb takes the legal documents that ÖREBlex publishes for a geolink
and turns them into objects of the OeREBKRMtrsfr_V2_0 transfer model. This
project models the core of that pipeline and proves properties of it:

- **Loading** (`PyramidOereb`). This covers:
  - the `load` pipeline: the master language is read first and its offices'
    web addresses are made multilingual;
  - then the read of every other language is merged into the master record at
    the same position (`merge_document`, `merge_office`, `merge_document_type`,
    `merge_attribute`);
  - finally every document type code and law status code is replaced by its
    configured lookup;
  - the title and federal-level filter rules of the custom ÖREBlex source.
- **Translation** (`Generators`). This covers:
  - `fix_url`;
  - the multilingual text and URI builders;
  - the office and document translators, which link a document to its office
    by `str(amt)` and give the document `str(dokument)` as its `TID`.
- **Transformation** (`Transform`):
  - `run` and `run_batch`, which map the loaded records to
    (document, office) pairs;
  - `unify_gathered`, which keeps the first office per `str(amt)` and the first
    document per `TID`;
  - `assign_uuids`, which gives every office a new identifier, points the
    documents that refer to it at that identifier and gives each of them a new
    `TID`.

Python dicts are ordered association lists with unique keys (`LangDict`), so
key order and `{**a, **b}` are modelled exactly. Exceptions are `Err` results
(`IndexError`, `TypeError`, `AttributeError`). Records whose attributes the
code assigns are classes with those fields, and their methods carry
`modifies` clauses. Read-only parts are values.

Three inputs are parameters of the model:
- what `str()` yields for an office or a document (`Stringify`);
- `uuid4()`, given as a function from the number of identifiers drawn so far;
- the per-language reads of ÖREBlex.

`merge_document` gives the master a new copy of its own law status
(`src/geolink2oereb/lib/interfaces/pyramid_oereb/__init__.py:236`), and
`tests/lib/interfaces/test_pyramid_oereb.py:492-493` expects the merged record
to keep the master's law status code and title. The model does the same
(`MergeDocument`, `MergeDocumentKeepsMaster`).

The law status record `lst` that `load` creates is shared by every record that
was not merged. A merged record holds its own copy instead; the ghost field
`holder` of `LawStatusRecord` names the record a copy was made for, and so
proves that no two merged records share one. The records that some other
language's read reached are the first `MergedLength` ones. The remap loop
looks up the code of every such copy once, but the code of `lst` once per
record that still refers to it. `RemapCodes` states this through the number of
references per object (`Uses`). `Load` states the resulting codes record by
record (`Loaded`). `SharedCodeLookedUpTwice` shows the effect with a
non-idempotent lookup table, and `LoadedOnce` shows that a table whose
transfer codes map to themselves makes it harmless.

## Model

| member | source | states |
|---|---|---|
| `LangDict.UnionGet` | src/geolink2oereb/lib/interfaces/pyramid_oereb/__init__.py:46 | in `{**a, **b}` the value of `b` wins on a shared key; every other key keeps `a`'s value |
| `LangDict.UnionKeys` | src/geolink2oereb/lib/interfaces/pyramid_oereb/__init__.py:46 | the merged dict's keys are `a`'s in `a`'s order, then `b`'s new keys in `b`'s order |
| `LangDict.UnionKeySet` | src/geolink2oereb/lib/interfaces/pyramid_oereb/__init__.py:46 | a key is in the merged dict exactly when it is in one of the two |
| `LangDict.UnionIdempotent` | src/geolink2oereb/lib/interfaces/pyramid_oereb/__init__.py:46 | merging the same dict a second time changes nothing |
| `LangDict.UnionSelf` | src/geolink2oereb/lib/interfaces/pyramid_oereb/__init__.py:46 | a dict merged with itself is itself |
| `LangDict.UnionNotCommutative` | src/geolink2oereb/lib/interfaces/pyramid_oereb/__init__.py:46 | with a shared key holding two values, the merge order decides which value survives |
| `PyramidOereb.MergeAttributeCases` | src/geolink2oereb/lib/interfaces/pyramid_oereb/__init__.py:23-48 | the set side is kept when the other is `None`; two dicts are joined with the merger winning; every other combination (a bare string on either side) gives `None` |
| `PyramidOereb.MergeAttributeIdempotent` | src/geolink2oereb/lib/interfaces/pyramid_oereb/__init__.py:23-48 | merging the same merger twice equals merging once, exactly unless the master was a bare string and the merger a dict |
| `PyramidOereb.MergeAttributeSelf` | src/geolink2oereb/lib/interfaces/pyramid_oereb/__init__.py:23-48 | an attribute merged with itself is unchanged when it is `None` or a dict, and `None` when it is a bare string |
| `PyramidOereb.MergeOffice` | src/geolink2oereb/lib/interfaces/pyramid_oereb/__init__.py:192-205 | the master is returned; its name and web address are merged and nothing else changes |
| `PyramidOereb.MergeDocumentType` | src/geolink2oereb/lib/interfaces/pyramid_oereb/__init__.py:208-222 | the master's title is merged in place; a new record with the master's code and merged title is returned |
| `PyramidOereb.MergeDocument` | src/geolink2oereb/lib/interfaces/pyramid_oereb/__init__.py:225-242 | the master gets a new document type and a new copy of its law status, made for it; its office is merged in place; its four multilingual fields are merged |
| `PyramidOereb.MergeDocumentKeepsMaster` | src/geolink2oereb/lib/interfaces/pyramid_oereb/__init__.py:225-242 | a merge keeps the master's index, dates, municipality, law status, type code and office uid and city, and loses no language of the title |
| `PyramidOereb.AtWebMultilingual` | src/geolink2oereb/lib/interfaces/pyramid_oereb/__init__.py:257-258 | the result is always a dict: an existing dict unchanged, otherwise exactly `{language: address}` |
| `PyramidOereb.AtWebMultilingualIdempotent` | src/geolink2oereb/lib/interfaces/pyramid_oereb/__init__.py:257-258 | wrapping an already wrapped address, in any language, changes nothing |
| `PyramidOereb.MakeOfficeAtWebMultilingual` | src/geolink2oereb/lib/interfaces/pyramid_oereb/__init__.py:245-259 | every record's office web address is wrapped; nothing else changes, even where offices are shared |
| `PyramidOereb.TransferCodeFirstMatch` | src/geolink2oereb/lib/interfaces/pyramid_oereb/__init__.py:169-172 | the lookup is `None` exactly when no item matches, and otherwise the transfer code of the first matching item |
| `PyramidOereb.GetDocumentTypeCodeByExtractValue` | src/geolink2oereb/lib/interfaces/pyramid_oereb/__init__.py:158-172 | the loop returns the first-match transfer code of the document type table, or `None` |
| `PyramidOereb.GetLawStatusCodeByExtractValue` | src/geolink2oereb/lib/interfaces/pyramid_oereb/__init__.py:175-189 | the loop returns the first-match transfer code of the law status table, or `None` |
| `PyramidOereb.DocumentTitle` | src/geolink2oereb/lib/interfaces/pyramid_oereb/__init__.py:76-98 | a single-language title that starts with the document title; it equals that title exactly for a non-decree, and for a decree continues with ` (file title)` |
| `PyramidOereb.DocumentRecords` | src/geolink2oereb/lib/interfaces/pyramid_oereb/__init__.py:112-119 | no records for a federal level in the filter list, otherwise the parent's records |
| `PyramidOereb.RemapRecord` | src/geolink2oereb/lib/interfaces/pyramid_oereb/__init__.py:330-339 | one record's type and law status codes are replaced by their lookups; every object that is the same document type or law status sees the change |
| `PyramidOereb.RemapEach` | src/geolink2oereb/lib/interfaces/pyramid_oereb/__init__.py:330-339 | after the loop each document type and law status code has been looked up once per record that refers to that object; titles, records and offices are unchanged |
| `PyramidOereb.RemapCodes` | src/geolink2oereb/lib/interfaces/pyramid_oereb/__init__.py:330-339 | the records' values are the old values with each code looked up as often as its object is referred to |
| `PyramidOereb.IterateStable` | src/geolink2oereb/lib/interfaces/pyramid_oereb/__init__.py:330-339 | with a table whose transfer codes map to themselves, repeated lookups equal a single lookup |
| `PyramidOereb.SharedCodeLookedUpTwice` | src/geolink2oereb/lib/interfaces/pyramid_oereb/__init__.py:330-339 | a law status shared by two records, with the table `A -> B`, ends as `None` instead of `B` |
| `PyramidOereb.DocTypeUsedOnce` | src/geolink2oereb/lib/interfaces/pyramid_oereb/__init__.py:330-334 | records with separate document types have each type looked up exactly once |
| `PyramidOereb.Read` | src/geolink2oereb/lib/interfaces/pyramid_oereb/__init__.py:319 | a read yields one new record per delivered document, each with its own new type and office, all sharing the given law status |
| `PyramidOereb.ReadLanguage` | src/geolink2oereb/lib/interfaces/pyramid_oereb/__init__.py:319-320 | a read followed by the wrap: new, separate records whose offices carry their address under the read's language |
| `PyramidOereb.MergeAt` | src/geolink2oereb/lib/interfaces/pyramid_oereb/__init__.py:327-328 | one merge changes only the record at that position, to the merged value of it and its counterpart, and gives it a law status copy made for it |
| `PyramidOereb.HeldShared` | src/geolink2oereb/lib/interfaces/pyramid_oereb/__init__.py:236 | when each of the first records holds a law status copy made for it and the rest share `lst`, those copies are pairwise different and none is `lst` |
| `PyramidOereb.MergeRead` | src/geolink2oereb/lib/interfaces/pyramid_oereb/__init__.py:326-328 | every merger is merged into the master record at its position; the loop succeeds exactly when there are no more mergers than master records; every record it reached then holds its own law status copy, and the rest still share `lst` |
| `PyramidOereb.MergeLanguage` | src/geolink2oereb/lib/interfaces/pyramid_oereb/__init__.py:322-328 | one other language: its read, wrapped, is merged position by position; it fails exactly when that read is longer than the master read; the records it reached hold their own law status copies |
| `PyramidOereb.MergeFromFails` | src/geolink2oereb/lib/interfaces/pyramid_oereb/__init__.py:322-328 | the merge of all languages fails exactly when some non-master language's read is longer than the master read, and keeps the master read's length otherwise |
| `PyramidOereb.MergedReadsFail` | src/geolink2oereb/lib/interfaces/pyramid_oereb/__init__.py:317-328 | merging the reads fails exactly for an empty language list or a non-master read longer than the master read, and otherwise has the master read's length |
| `PyramidOereb.MergeStep` | src/geolink2oereb/lib/interfaces/pyramid_oereb/__init__.py:322-328 | one pass of the language loop keeps the merged reads still to come and the law status sharing, or fails only when the merge of all reads fails |
| `PyramidOereb.ReadAndMerge` | src/geolink2oereb/lib/interfaces/pyramid_oereb/__init__.py:295-328 | it succeeds exactly when the merge of all reads does; then new, separate records hold the merged reads; each of the first `MergedLength` records has a law status of its own, and the others share `lst` |
| `PyramidOereb.SharedUses` | src/geolink2oereb/lib/interfaces/pyramid_oereb/__init__.py:330-339 | in a list whose first `m` elements are pairwise different and differ from `x`, and whose rest is `x`, each of the first occurs once and `x` occurs once per remaining position |
| `PyramidOereb.RemapLoaded` | src/geolink2oereb/lib/interfaces/pyramid_oereb/__init__.py:330-339 | on the merged records, the remap loop looks up each document type once, each law status copy once, and `lst` once per record sharing it |
| `PyramidOereb.LoadedOnce` | src/geolink2oereb/lib/interfaces/pyramid_oereb/__init__.py:330-339 | with a law status table whose transfer codes map to themselves, every loaded record ends as if each of its codes was looked up once |
| `PyramidOereb.Load` | src/geolink2oereb/lib/interfaces/pyramid_oereb/__init__.py:262-341 | `IndexError` exactly for an empty language list or an over-long read. Otherwise the result is new records that share no record, document type or office, with the merged reads as values. Each document type code is looked up once, and the law status code of each of the first `MergedLength` records once. The code of the shared `lst` is looked up once per record that shares it |
| `Generators.FixUrlCases` | src/geolink2oereb/lib/interfaces/oerebkrmtrsfr/v2_0/generators.py:24-39 | the result starts with `http` and ends with the input; it equals the input exactly when that starts with `http`, and is `https://` + input otherwise |
| `Generators.FixUrlIdempotent` | src/geolink2oereb/lib/interfaces/oerebkrmtrsfr/v2_0/generators.py:24-39 | fixing a fixed URL changes nothing |
| `Generators.TextFromAttrCases` | src/geolink2oereb/lib/interfaces/oerebkrmtrsfr/v2_0/generators.py:42-67 | `None` gives `None`; a dict gives one localised text per key in key order carrying that key's value; a non-empty string raises `TypeError` |
| `Generators.MultilingualTextFromDict` | src/geolink2oereb/lib/interfaces/oerebkrmtrsfr/v2_0/generators.py:42-67 | the loop builds exactly those texts |
| `Generators.LocalisedUrisCases` | src/geolink2oereb/lib/interfaces/oerebkrmtrsfr/v2_0/generators.py:90-93 | the URIs are built exactly when no value is `None`: one per item, in order, each through `fix_url`; otherwise `AttributeError` |
| `Generators.UriFromAttrCases` | src/geolink2oereb/lib/interfaces/oerebkrmtrsfr/v2_0/generators.py:70-94 | `None` gives `None`; a dict without `None` values gives one fixed URI per key in key order; a `None` value raises `AttributeError`; a non-empty string raises `TypeError` |
| `Generators.WrappedOfficeUrl` | src/geolink2oereb/lib/interfaces/oerebkrmtrsfr/v2_0/generators.py:87-94 | a wrapped office address becomes one fixed URI in the read's language, and a missing address makes the translation fail |
| `Generators.FixedUris` | src/geolink2oereb/lib/interfaces/oerebkrmtrsfr/v2_0/generators.py:89-93 | the loop over the dict's items builds exactly those URIs, or fails at a `None` value |
| `Generators.MultilingualUriFromDict` | src/geolink2oereb/lib/interfaces/oerebkrmtrsfr/v2_0/generators.py:70-94 | the builder yields exactly the URIs described above |
| `Generators.AmtOfFields` | src/geolink2oereb/lib/interfaces/oerebkrmtrsfr/v2_0/generators.py:97-117 | the office copies uid, address lines, street, number, postcode and city one-to-one; name and web address go through their builders; the name's error comes first |
| `Generators.OfficeRecordToAmt` | src/geolink2oereb/lib/interfaces/oerebkrmtrsfr/v2_0/generators.py:97-117 | a new office with exactly those fields, or the builder's error |
| `Generators.DokumentOfFields` | src/geolink2oereb/lib/interfaces/oerebkrmtrsfr/v2_0/generators.py:120-151 | REF is `str(amt)` of the built office; TID is `str` of the document's content; type, law status, index, municipality, dates and the four multilingual fields are the record's |
| `Generators.DocumentRecordToExchange` | src/geolink2oereb/lib/interfaces/oerebkrmtrsfr/v2_0/generators.py:120-151 | a new document and office with exactly those values, or the first error |
| `Transform.MapResultPerElement` | src/geolink2oereb/transform.py:47 | a comprehension over translations yields one result per element in order, or the error of the first element that fails |
| `Transform.TranslatedPerRecord` | src/geolink2oereb/transform.py:47 | `run` yields one pair per record, in order, each the record's translation, or the first record's failure |
| `Transform.Run` | src/geolink2oereb/transform.py:15-47 | the loop returns new pairs whose values are exactly those translations |
| `Transform.MapResultAppend` | src/geolink2oereb/transform.py:76-84 | translating two lists one after the other is translating their concatenation |
| `Transform.MapBatchesFlatten` | src/geolink2oereb/transform.py:75-85 | concatenating the per-list results is mapping the concatenated lists |
| `Transform.TranslatedBatchesFlatten` | src/geolink2oereb/transform.py:50-85 | `run_batch` gives the result of `run` on all geolinks' records in order |
| `Transform.RunBatch` | src/geolink2oereb/transform.py:50-85 | the loop returns the concatenation of the per-geolink pairs, or the first failure |
| `Transform.FirstIndicesIncreasing` | src/geolink2oereb/transform.py:105-116 | the kept positions are increasing (first-seen order), and there are at most as many as inputs |
| `Transform.FirstIndicesFirst` | src/geolink2oereb/transform.py:109-115 | a position is kept exactly when its key does not occur earlier |
| `Transform.FirstIndicesCover` | src/geolink2oereb/transform.py:109-115 | every key of the input occurs among the kept keys, and no other |
| `Transform.FirstIndicesDistinct` | src/geolink2oereb/transform.py:109-115 | the kept keys are pairwise distinct |
| `Transform.DedupStep` | src/geolink2oereb/transform.py:110-115 | one more pair appends its key and element exactly when the key was not yet seen |
| `Transform.SharedOfficeKept` | tests/lib/test_transform.py:162-167 | two pairs sharing one office, with two different document TIDs, give two documents and one office |
| `Transform.UnifyGathered` | src/geolink2oereb/transform.py:88-116 | the offices at the first pair of each `str(amt)` and the documents at the first pair of each TID, in first-seen order |
| `Transform.MatchingSound` | src/geolink2oereb/transform.py:140-141 | the inner loop takes only documents whose REF is the office key |
| `Transform.MatchingComplete` | src/geolink2oereb/transform.py:140-141 | the inner loop takes every document whose REF is the office key |
| `Transform.OrderSound` | src/geolink2oereb/transform.py:138-143 | the first offices take only documents referring to one of them |
| `Transform.OrderComplete` | src/geolink2oereb/transform.py:138-143 | the first offices take every document referring to one of them |
| `Transform.OrderSorted` | src/geolink2oereb/transform.py:138-143 | returned documents are ordered by office, then by position |
| `Transform.OrderDistinct` | src/geolink2oereb/transform.py:138-143 | with distinct office keys no document is returned twice |
| `Transform.ReturnedDocuments` | src/geolink2oereb/transform.py:136-147 | the returned documents are exactly the matched ones, each once, by office then position |
| `Transform.DocSlotBand` | src/geolink2oereb/transform.py:139-144 | a document draws its identifier after its office's and before the next office's |
| `Transform.SlotsDistinct` | src/geolink2oereb/transform.py:139-144 | offices and taken documents draw at pairwise different counts, so distinct uuids make all new identifiers distinct |
| `Transform.RetargetAt` | src/geolink2oereb/transform.py:140-142 | after the inner loop each document referring to the key points at the new identifier; the others keep their REF |
| `Transform.StampedAt` | src/geolink2oereb/transform.py:140-144 | after the inner loop the k-th taken document has the identifier drawn k places after the office's; the others keep their TID |
| `Transform.Consider` | src/geolink2oereb/transform.py:141-144 | one document is retargeted and given a new TID exactly when its REF is the key; nothing else changes |
| `Transform.Visit` | src/geolink2oereb/transform.py:140-144 | one pass of the inner loop keeps the retarget/stamp state and the list of taken documents |
| `Transform.TakeDocuments` | src/geolink2oereb/transform.py:140-144 | the inner loop retargets and stamps every document with the key, returns them in position order, and draws one identifier each |
| `Transform.AssignOffice` | src/geolink2oereb/transform.py:139-146 | an office draws one identifier, its documents are taken, and then the office's TID is set to that identifier |
| `Transform.AssignNext` | src/geolink2oereb/transform.py:138-146 | one pass of the outer loop keeps the state that is valid after each office |
| `Transform.AssignAll` | src/geolink2oereb/transform.py:136-147 | the outer loop reaches that state for all offices |
| `Transform.AssignUuids` | src/geolink2oereb/transform.py:119-147 | the offices keep order and length and get their identifier; the returned documents are the matched ones by office, then position; each points at its office's new TID and has its own new TID; unmatched documents are unchanged |

## Left out

- Configuration is not modelled: `Config.init`, the YAML file, the dotted-name class resolver, `create_document_source`, `Parameter` and the language settings. `Load` receives the language list, one read per language and the theme's lookup tables.
- The document-type enumeration helper (`oerebkrm_v2_0_dokument_typ_2_document_type_records`) is not modelled: it only fills configuration.
- Logging is not modelled.
- The HTTP reads of ÖREBlex are not modelled. `source.read` is modelled as building new records from given document values (`Read`). The model assumes the real source gives every record its own document type and office object, because the position-wise merge model relies on that.
- The parent `OEREBlexSource._get_document_records` is not modelled: `DocumentRecords` takes its output as a parameter.
- The generated transfer-model classes are not modelled; only the attributes the translators fill are kept. `ZustaendigeStelle` is kept as the document's `ref` field, because the code only ever sets a fresh wrapper's `REF`.
- What `str()` yields for an office or document is not modelled: it stays an arbitrary function of the entity's content (`Stringify`).
- The format of `uuid4()` identifiers is not modelled, including the version-4 assertion in tests/lib/test_transform.py. Uniqueness is stated by `SlotsDistinct`, via distinct draw counts.
- `cli.py` and the XML output are not part of this model.
- Transform.Run: takes the records that `load` returned instead of calling it, so a failing `load` is not propagated into `run`.
- Transform.RunBatch: takes each geolink's loaded records instead of calling `load`, for the same reason.
- Transform.AssignUuids: requires the documents to be distinct objects and the offices' `str(amt)` keys to be pairwise distinct. Both hold for `unify_gathered`'s output, which the source expects. It also requires that no identifier equals an office key. `str(amt)` is taken once per office, before its `TID` is set, as in the source.
- PyramidOereb.Load: on an `IndexError` the model returns only the error, not the records that were already merged in place; Python's raise discards them as well.
- PyramidOereb.MergeAt: requires the records, document types and offices not to be shared between the two lists or within the master list (`Separate`, `Disjoint`). Law status records may be shared.
- PyramidOereb.MergeRead: has the same requirement as `MergeAt`. It also requires the ghost law status state `Held`: each of the first `m` records holds a copy made for it, and the others share `lst`. `load` establishes this state before its merges.
- PyramidOereb.MergeLanguage: requires the master records not to share records, document types or offices (`Separate`); the read it merges is new. It also requires `Held`, as `MergeRead` does.
- PyramidOereb.MergeStep: requires the state of the language loop of `load` (`Reading`), which `load` establishes before the loop.
- Generators.MultilingualTextFromDict: a non-dict attribute is assumed to be `None` or a string, so other Python values (numbers, lists) are not modelled.
- Generators.MultilingualUriFromDict: makes the same assumption.
