# WEKO3 core rules in Dafny

This project models the self-contained logic inside four files of the WEKO3
institutional repository, and proves properties about it.

- **Search UI** (`weko_search_ui/utils.py`):
  - import helpers that turn a flattened TSV column key into a key path;
  - the fill-then-convert construction of a nested JSON form from `(key, value)` pairs;
  - the pairing of validation messages with imported records;
  - the grouping of feedback-mail buckets by address;
  - the role test of `check_permission`;
  - the path-list update of `delete_records`.
- **Record UI views** (`weko_records_ui/views.py`):
  - the icon chosen for a MIME type;
  - the Creative Commons badge for a license code;
  - the export-format dispatch and the content type;
  - the publish-status rule;
  - file-bearing metadata and index ids in `get_items_metadata`.
- **Dublin Core feed extension** (`weko_records/serializers/dc.py`):
  - an object holding one value list per element of the Dublin Core Metadata Element Set 1.1;
  - the `dc_publisher` setter;
  - the rendering of the stored values as child elements, with `xml:lang` on publishers.
- **ResourceSync client glue** (`invenio_resourcesyncclient/utils.py`):
  - the retry rule around the client of the ResourceSync Framework (ANSI/NISO Z39.99-2017);
  - on a mapping error, the last `/`-segment of the first mapping is dropped in place and the call is tried again.

Modules:

- `Wrappers` (wrappers.dfy): `Option`, `Result`, and the Python exception classes the code can raise (`PyError`).
- `Strings` (strings.dfy): Python's `split`, `join`, `rsplit(c, 1)`, `endswith`, `in`, `replace`, `isnumeric` and `str(n)` on text.
- `JsonValues` (json.dfy): JSON values. A dict is an insertion-ordered association list, updated only by `Put`.
- `ImportKeys`, `NestedItems`, `ImportValidation`, `SearchUiAdmin`: weko_search_ui/utils.py.
- `RecordsUiViews`: weko_records_ui/views.py.
- `DcExtension`: weko_records/serializers/dc.py. The feed extension and the XML element are classes whose fields the methods update.
- `ResourceSync`: invenio_resourcesyncclient/utils.py. The mapping list is an `array<string>` whose first cell the methods overwrite.

Foreign code is passed in as parameters:

- the JSON-schema validator is a function from metadata to messages;
- the resync client is a function from the current mappings and URL to an `Attempt`;
- document and sitemap reads are functions from a URL to a `Result`.

A loop that the Python code would repeat forever shows up as an explicit outcome: `Spins` or `Diverges`.

## Model

| member | source | states |
|---|---|---|
| ImportKeys.NormalizeKey | modules/weko-search-ui/weko_search_ui/utils.py:230 | the four `replace` calls in source order; their result is stated by `NormalizeKeyClean`, `KeyPathRoundTrip` and `KeyPathOfJoin` |
| ImportKeys.NormalizeKeyClean | modules/weko-search-ui/weko_search_ui/utils.py:230 | after the separator rewriting, no `[`, `]` or `#` is left |
| ImportKeys.KeyPath | modules/weko-search-ui/weko_search_ui/utils.py:229-237 | no segment of a key path contains `[`, `]`, `#` or `.` |
| ImportKeys.KeyPathRoundTrip | modules/weko-search-ui/weko_search_ui/utils.py:230-233 | exactly a leading empty piece is dropped: an empty rewritten key gives `[]`; one starting with `.` gives the split of the text after that `.`, and the path joined with `.` and prefixed with `.` rebuilds it; any other gives its whole split, and the joined path is the key itself (trailing empty pieces stay) |
| ImportKeys.LeadingSeparatorExample | modules/weko-search-ui/weko_search_ui/utils.py:232-233 | the key `.a` gives the path `["a"]`: the empty first piece is deleted |
| ImportKeys.KeyPathOfJoin | modules/weko-search-ui/weko_search_ui/utils.py:229-237 | a separator-free path whose first piece is non-empty is the key path of its own `.`-join |
| ImportKeys.KeyPathExample | modules/weko-search-ui/weko_search_ui/utils.py:229-237 | `a[0].b` gives the path `["a", "0", "b"]` |
| ImportKeys.IsTsv | modules/weko-search-ui/weko_search_ui/utils.py:198-200 | `split('.')[-1] == "tsv"`; characterised by `IsTsvIff` |
| ImportKeys.IsTsvIff | modules/weko-search-ui/weko_search_ui/utils.py:198-200 | a name is a TSV name iff it is `tsv` itself or ends in `.tsv` |
| ImportKeys.GetBase64String | modules/weko-search-ui/weko_search_ui/utils.py:193-195 | the result has no comma; it is the whole text when there is no comma; otherwise the text before the last comma, a comma and the result rebuild the input |
| NestedItems.SetNestedItem | modules/weko-search-ui/weko_search_ui/utils.py:203-207 | the walk of `reduce(getitem, …)` through a defaultdict, then the write; its outcome, value and frame are stated by `SetNestedItemOk`, `SetNestedItemLands`, `SetNestedItemOther` and `SetNestedItemListFree` |
| NestedItems.SetNestedItemOk | modules/weko-search-ui/weko_search_ui/utils.py:203-207 | `set_nested_item` succeeds iff the path is non-empty and every proper prefix of it leads to a dict (missing keys are created, as with the defaultdict) |
| NestedItems.SetNestedItemLands | modules/weko-search-ui/weko_search_ui/utils.py:203-207 | after a successful call, looking up the path gives the value written |
| NestedItems.SetNestedItemOther | modules/weko-search-ui/weko_search_ui/utils.py:203-207 | every path that parts ways with the written path looks up the same value as before |
| NestedItems.SetNestedItemListFree | modules/weko-search-ui/weko_search_ui/utils.py:203-207 | writing a list-free value into a list-free dict leaves a list-free dict |
| NestedItems.LookupPrefixOpen | modules/weko-search-ui/weko_search_ui/utils.py:212 | a path that looks up a value passes through a dict at every proper prefix |
| NestedItems.ConvertNestedItemToList | modules/weko-search-ui/weko_search_ui/utils.py:210-216 | reads the value at the path, replaces a dict by the list of its values; stated by `ConvertNestedItemToListSpec` |
| NestedItems.ConvertNestedItemToListSpec | modules/weko-search-ui/weko_search_ui/utils.py:210-216 | at a path holding a dict, the call succeeds and puts the list of the dict's values there, in insertion order; paths that part ways are unchanged |
| NestedItems.ConvertData | modules/weko-search-ui/weko_search_ui/utils.py:244-255 | the recursion of `convert_data`, children first, then a numeric-keyed dict becomes a list; stated by `ConvertDataOk`, `ConvertDataConverted`, `ConvertDataFixpoint` and `ConvertDataLeaves` |
| NestedItems.ConvertDataOk | modules/weko-search-ui/weko_search_ui/utils.py:244-255 | `convert_data` succeeds iff no dict in the tree is empty (`list_pro[0]`), and the root's first key is not numeric (an empty `map_list` raises) |
| NestedItems.ConvertDataConverted | modules/weko-search-ui/weko_search_ui/utils.py:244-255 | on a list-free tree, the result has no empty dict and no dict whose first key is numeric; a dict root stays a dict |
| NestedItems.ConvertDataFixpoint | modules/weko-search-ui/weko_search_ui/utils.py:244-255 | a converted tree is left unchanged |
| NestedItems.ConvertDataLeaves | modules/weko-search-ui/weko_search_ui/utils.py:244-255 | the conversion keeps every string of the tree, in order |
| NestedItems.FillForm | modules/weko-search-ui/weko_search_ui/utils.py:256-258 | the `for key, value in data` loop setting each pair at its key path; stated by `FillFormErrSticky`, `FillFormShape` and `FillFormLands` |
| NestedItems.FillFormErrSticky | modules/weko-search-ui/weko_search_ui/utils.py:256-258 | once one pair fails to be set, the whole loop fails with that error |
| NestedItems.FillFormShape | modules/weko-search-ui/weko_search_ui/utils.py:256-258 | the filled form is a dict holding no list |
| NestedItems.FillFormLands | modules/weko-search-ui/weko_search_ui/utils.py:256-258 | a pair's value is found at its key path unless a later pair's key path fails to part ways with it, so a later duplicate key overwrites |
| NestedItems.ConvertDataDict | modules/weko-search-ui/weko_search_ui/utils.py:244-255 | a converted dict is non-empty with every child converted; a numeric first key (below the root) gives the list of the converted values in order, any other first key keeps the keys in order with the converted values |
| NestedItems.ConvertDataExample | modules/weko-search-ui/weko_search_ui/utils.py:244-255 | `{"a": {"b": {"0": "x"}}}` converts to `{"a": {"b": ["x"]}}` |
| NestedItems.ConvertDataLookup | modules/weko-search-ui/weko_search_ui/utils.py:244-255 | along a key path through dicts whose first key is not numeric, looking up the converted tree gives the conversion of what the original tree holds there |
| NestedItems.ParseForm | modules/weko-search-ui/weko_search_ui/utils.py:240-261 | `FillForm` then `ConvertData` at the root; stated by `ParseFormShape` and `ParseFormLands` |
| NestedItems.ParseFormLands | modules/weko-search-ui/weko_search_ui/utils.py:240-261 | a pair that no later pair overwrites is found at its key path in the parsed form, when that path passes no numeric-keyed dict |
| NestedItems.ParseFormShape | modules/weko-search-ui/weko_search_ui/utils.py:240-261 | the parsed form is a dict with no empty dict and no numeric-keyed dict left; it holds the filled form's strings in order; converting it again changes nothing |
| NestedItems.ParseToJsonForm | modules/weko-search-ui/weko_search_ui/utils.py:240-261 | the loop computes the fill-then-convert specification `ParseForm`, whose properties are the lemmas above |
| ImportValidation.ErrorsValue | modules/weko-search-ui/weko_search_ui/utils.py:409-410 | `errors` is None iff there are no messages; with messages it is a list of exactly those messages, in order |
| ImportValidation.HandleValidateItemImport | modules/weko-search-ui/weko_search_ui/utils.py:390-413 | corrected: one entry per record, in order; each is the record plus `errors` holding that record's own messages; fails with TypeError iff some record already has an `errors` key (duplicate keyword) |
| ImportValidation.ValidateAsWritten | modules/weko-search-ui/weko_search_ui/utils.py:403-412 | the loop as written, carrying `errors` from record to record (unbound at first); its discrepancy is exhibited by `StaleErrorsExample` and `UnboundErrorsExample` |
| ImportValidation.StaleErrorsExample | modules/weko-search-ui/weko_search_ui/utils.py:404-411 | as written, a record without metadata after a rejected one inherits the rejected record's messages; the corrected rule gives it None |
| ImportValidation.UnboundErrorsExample | modules/weko-search-ui/weko_search_ui/utils.py:404-411 | as written, a first record without metadata raises UnboundLocalError; the corrected rule succeeds |
| SearchUiAdmin.RemovedAsWritten | modules/weko-search-ui/weko_search_ui/utils.py:67-71 | as written, the removed path is the first one ending with the index id: it ends with the id and no earlier path does; when there is none, no path ends with it |
| SearchUiAdmin.SuffixMatchExample | modules/weko-search-ui/weko_search_ui/utils.py:67-71 | deleting index 2 removes the path `5/12`, which does not name index 2 |
| SearchUiAdmin.RemovePath | modules/weko-search-ui/weko_search_ui/utils.py:64-71 | corrected: nothing is removed iff no path names the index; otherwise the first such path is removed and the others keep their order |
| SearchUiAdmin.DeletePathFromRecord | modules/weko-search-ui/weko_search_ui/utils.py:61-86 | a record without a `path` key raises KeyError, and that is the only error; a missing record, a None `path` or an empty list is left alone, and nothing else is; the record is deleted iff its only path names the index; otherwise the new list is the old one iff no path names the index, and else the old one without its first path naming the index, order kept |
| SearchUiAdmin.FirstAuthorIndex | modules/weko-search-ui/weko_search_ui/utils.py:154-157 | the index found is the first hit with a non-empty author id, or the number of hits when there is none |
| SearchUiAdmin.AuthorOfStep | modules/weko-search-ui/weko_search_ui/utils.py:154-157 | reading one more hit changes the author id only while no non-empty one has been found |
| SearchUiAdmin.AuthorOf | modules/weko-search-ui/weko_search_ui/utils.py:154-157 | the author id the inner loop leaves, in closed form; stepped by `AuthorOfStep` and computed by `CollectHits` |
| SearchUiAdmin.CollectHits | modules/weko-search-ui/weko_search_ui/utils.py:150-158 | an address's entry holds its hits' ids in order, and the first non-empty author id (else the last hit's, else `''`) |
| SearchUiAdmin.Feedback | modules/weko-search-ui/weko_search_ui/utils.py:142-159 | None or a non-list gives `{}`; a list of buckets gives `FeedbackOf` |
| SearchUiAdmin.FeedbackOf | modules/weko-search-ui/weko_search_ui/utils.py:145-158 | the fold over the buckets with `result[email] = …`; stated by `FeedbackDistinct`, `FeedbackAbsent` and `FeedbackLast`, computed by `ParseFeedbackMailData` |
| SearchUiAdmin.ParseFeedbackMailData | modules/weko-search-ui/weko_search_ui/utils.py:142-159 | the loop computes the fold `Feedback`: None gives `{}`, buckets with a zero count are skipped, a later bucket replaces an earlier entry in place |
| SearchUiAdmin.FeedbackDistinct | modules/weko-search-ui/weko_search_ui/utils.py:142-159 | the result's addresses are distinct |
| SearchUiAdmin.FeedbackAbsent | modules/weko-search-ui/weko_search_ui/utils.py:146-148 | an address has an entry iff some bucket with a non-zero count has it as key |
| SearchUiAdmin.FeedbackLast | modules/weko-search-ui/weko_search_ui/utils.py:147-158 | an address's entry is built from the last bucket with that address and a non-zero count |
| SearchUiAdmin.CheckPermission | modules/weko-search-ui/weko_search_ui/utils.py:162-170 | permitted iff the user has roles and one of them is the system or repository administrator role |
| RecordsUiViews.IconFor | modules/weko-records-ui/weko_records_ui/views.py:144-174 | the chosen icon is one of the twelve fixed icon names |
| RecordsUiViews.GetImageSrc | modules/weko-records-ui/weko_records_ui/views.py:137-176 | the result is `/static/images/icon/` followed by one of the fixed icon names |
| RecordsUiViews.TextWins | modules/weko-records-ui/weko_records_ui/views.py:144-145 | any `text/` type, `text/xml` included, gets the text icon |
| RecordsUiViews.OthersIff | modules/weko-records-ui/weko_records_ui/views.py:144-174 | the "others" icon is chosen iff none of the tested fragments occurs |
| RecordsUiViews.VideoIcons | modules/weko-records-ui/weko_records_ui/views.py:168-172 | a video type matching no earlier fragment gets the flash icon iff it contains `flv`, else the movie icon |
| RecordsUiViews.GetLicenseIcon | modules/weko-records-ui/weko_records_ui/views.py:180-240 | the `if` chain over `license_free` and `license_0` … `license_5`; stated by `LicenseIconFirst`, `LicenseIconNone` and `LicenseIconShape` |
| RecordsUiViews.LicenseIconFirst | modules/weko-records-ui/weko_records_ui/views.py:186-237 | a code with no `license_free` gets the badge of the first `license_k` it contains: `/static/images/default/88x31(k+1).png`, `lic_dict[license_k]`, `href_dict[license_k]` |
| RecordsUiViews.LicenseIconNone | modules/weko-records-ui/weko_records_ui/views.py:204-207 | a code containing `license_free`, or no known license, gets `('', '', '#')` |
| RecordsUiViews.LicenseIconShape | modules/weko-records-ui/weko_records_ui/views.py:204-237 | the result is `('', '', '#')` or one of the six badges; the source is empty iff the href is `#`; a non-empty source carries the badge directory |
| RecordsUiViews.ExportDispatch | modules/weko-records-ui/weko_records_ui/views.py:103-132 | no formats for the pid type raises AttributeError; a withdrawn format aborts with 410; an unknown one with 404; any other listed format is served; the record is stamped iff the name has neither `json` nor `bibtex`, and the content type is `text/plain` iff it has one of them, else `text/xml` |
| RecordsUiViews.ShippedJson | modules/weko-records-ui/weko_records_ui/config.py:54-77 | with the shipped record formats, `json` is served as text without a stamp, and `bibtex` is not found |
| RecordsUiViews.ShippedXml | modules/weko-records-ui/weko_records_ui/config.py:56-70 | with the shipped record formats, `junii2`, `jpcoar` and `dc` are served as XML and stamp the record with their name |
| RecordsUiViews.PublishStatus | modules/weko-records-ui/weko_records_ui/views.py:71-76 | `status or '0'`: the requested status when it is non-empty, else `'0'`; never empty |
| RecordsUiViews.Record.Publish | modules/weko-records-ui/weko_records_ui/views.py:71-76 | whether or not a status was set, `publish_status` ends up holding `status or '0'`, written in place |
| RecordsUiViews.Record.Export | modules/weko-records-ui/weko_records_ui/views.py:103-115 | the record gets `@export_schema_type` exactly when the dispatch serves it with a stamp; otherwise it is unchanged |
| RecordsUiViews.ScanItems | modules/weko-records-ui/weko_records_ui/views.py:401-404 | a list holds a file iff some item has `filename` and every earlier item was checked without error; it holds none iff every item was checked and lacks it; the only error is TypeError (`in` on None) |
| RecordsUiViews.FileData | modules/weko-records-ui/weko_records_ui/views.py:397-405 | the fold of `get_file_data` over the keys; stated by `FileDataErrSticky` and `FileDataKeeps`, computed by `GetFileData` |
| RecordsUiViews.GetFileData | modules/weko-records-ui/weko_records_ui/views.py:397-405 | the nested loops compute the fold `FileData`, stopping at the first error |
| RecordsUiViews.FileDataErrSticky | modules/weko-records-ui/weko_records_ui/views.py:399-404 | once a key's scan raises, the whole call raises that error |
| RecordsUiViews.FileDataKeeps | modules/weko-records-ui/weko_records_ui/views.py:397-405 | a key is kept iff its value is a list with an item holding `filename`, and it keeps the whole list unchanged |
| RecordsUiViews.PidList | modules/weko-records-ui/weko_records_ui/views.py:407-410 | no pids gives an empty list; otherwise the pieces contain no `/` and join back with `/` to the argument |
| RecordsUiViews.IndexIds | modules/weko-records-ui/weko_records_ui/views.py:415-418 | one id per path, in order: the text after the last `/`, which with the text before it rebuilds the path |
| DcExtension.Accumulate | modules/weko-records/weko_records/serializers/dc.py:69-71 | asked to replace, or when nothing is stored, the list becomes the new values; otherwise the new values are appended after the old |
| DcExtension.AccumulateTwice | modules/weko-records/weko_records/serializers/dc.py:69-71 | two appending calls store what one call with both lists stores |
| DcExtension.NodesFor | modules/weko-records/weko_records/serializers/dc.py:40-53 | one node per value, in order; the i-th publisher gets `langs[i]` iff `i < len(langs)`; no other element gets a language |
| DcExtension.Render | modules/weko-records/weko_records/serializers/dc.py:36-53 | the nodes `_extend_xml` appends for an element order; stated by `RenderSelect`, `RenderOrdered` and `RenderedNodes`, appended by `ExtendOrder` |
| DcExtension.RenderSelect | modules/weko-records/weko_records/serializers/dc.py:36-46 | over distinct elements, the nodes of an element are exactly its nodes, or none when it is not in the order |
| DcExtension.RenderOrdered | modules/weko-records/weko_records/serializers/dc.py:36-39 | over an order of increasing rank, the nodes come in rank order |
| DcExtension.ElementOrderRanked | modules/weko-records/weko_records/serializers/dc.py:36-39 | the fixed order lists all fifteen elements once each, in increasing rank |
| DcExtension.RenderedNodes | modules/weko-records/weko_records/serializers/dc.py:36-53 | in the rendering, the nodes of each element are its stored values with the publisher languages, and elements come in the fixed order |
| DcExtension.AppendNodes | modules/weko-records/weko_records/serializers/dc.py:40-53 | the inner loop appends exactly that element's nodes |
| DcExtension.ExtendOrder | modules/weko-records/weko_records/serializers/dc.py:36-53 | the outer loop appends the rendering of the stored values over the given order |
| DcExtension.DcWekoExtension.constructor | modules/weko-records/weko_records/serializers/dc.py:22-26 | every list starts as None |
| DcExtension.DcWekoExtension.DcPublisher | modules/weko-records/weko_records/serializers/dc.py:55-80 | with no arguments nothing changes; a non-list argument is wrapped; publishers and languages are updated independently by `Accumulate`; the stored publishers are returned |
| DcExtension.DcWekoExtension.ExtendXml | modules/weko-records/weko_records/serializers/dc.py:28-53 | the element gains exactly the rendering of the stored values over the fixed order |
| DcExtension.DcWekoExtension.ExtendJpcoarFeed | modules/weko-records/weko_records/serializers/dc.py:82-91 | the feed's first child gains the rendering, and the feed is returned; an empty feed raises IndexError; its sub-elements stay as they were |
| DcExtension.DcWekoExtension.ExtendAtom | modules/weko-records/weko_records/serializers/dc.py:97-104 | the entry itself gains the rendering and is returned; its sub-elements stay as they were |
| DcExtension.DcWekoExtension.ExtendRss | modules/weko-records/weko_records/serializers/dc.py:106-113 | the item itself gains the rendering and is returned; its sub-elements stay as they were |
| DcExtension.DcWekoExtension.ExtendJpcoarEntry | modules/weko-records/weko_records/serializers/dc.py:115-122 | the item itself, not a header, gains the rendering and is returned; its sub-elements stay as they were |
| ResourceSync.SchemeHost | modules/invenio-resourcesyncclient/invenio_resourcesyncclient/utils.py:130-131 | `urlunsplit` of the scheme and network location of `urlsplit(map[0])`; stated by `SchemeHostOf` |
| ResourceSync.SchemeHostOf | modules/invenio-resourcesyncclient/invenio_resourcesyncclient/utils.py:130-131 | for a lower-case scheme, `scheme://host` followed by nothing or by a path, query or fragment reduces to `scheme://host` |
| ResourceSync.TrimLastSegment | modules/invenio-resourcesyncclient/invenio_resourcesyncclient/utils.py:141-142 | `rsplit('/', 1)[0]`: unchanged without `/`; otherwise a strictly shorter prefix ending right before the last `/` |
| ResourceSync.Retry | modules/invenio-resourcesyncclient/invenio_resourcesyncclient/utils.py:133-142 | the `while` loop of `single_sync_incremental` on the mapping list, with its outcome and the first mapping it leaves; stated by `RetryEnds` and `RetryNoSpin`, computed by `SingleSyncIncremental` |
| ResourceSync.FirstSync | modules/invenio-resourcesyncclient/invenio_resourcesyncclient/utils.py:126-142 | an empty mapping list raises IndexError, otherwise `Retry` from the first mapping's host; stated by `FirstSyncNoSpin` |
| ResourceSync.RetryEnds | modules/invenio-resourcesyncclient/invenio_resourcesyncclient/utils.py:130-142 | the loop leaves a prefix of the first mapping; it makes no attempt when the mapping is the host; it stops without syncing only at the host; a sync uses a mapping the client accepted; it spins only on a mapping without `/` that is not the host |
| ResourceSync.RetryNoSpin | modules/invenio-resourcesyncclient/invenio_resourcesyncclient/utils.py:133-142 | a mapping of the form host + nothing or host + `/`-path never spins |
| ResourceSync.FirstSyncNoSpin | modules/invenio-resourcesyncclient/invenio_resourcesyncclient/utils.py:126-142 | a first mapping `scheme://host` plus nothing or a `/`-path never makes `single_sync_incremental` spin |
| ResourceSync.SingleSyncIncremental | modules/invenio-resourcesyncclient/invenio_resourcesyncclient/utils.py:126-142 | an empty mapping list raises IndexError; otherwise the result and the first mapping left are those of the loop specification `Retry`, and the other mappings are untouched |
| ResourceSync.SyncBaseline | modules/invenio-resourcesyncclient/invenio_resourcesyncclient/utils.py:47-68 | success returns True with the mappings unchanged; a mapping error trims the first mapping and returns False; any other exception propagates |
| ResourceSync.ReadCapability | modules/invenio-resourcesyncclient/invenio_resourcesyncclient/utils.py:34-44 | the `capability` entry of the document when present, else None; a read error propagates |
| ResourceSync.SyncIncremental | modules/invenio-resourcesyncclient/invenio_resourcesyncclient/utils.py:92-123 | returns True whenever the first sync ends, synced or not; when it raised, a listing error propagates, an empty listing re-raises the first error, and success means every listed document is a change list or change dump; the mapping list only has its first mapping cut back to a prefix, and when no document is synced that first mapping is exactly the one the first retry loop leaves |
| ResourceSync.SyncDocuments | modules/invenio-resourcesyncclient/invenio_resourcesyncclient/utils.py:112-122 | the fallback loop succeeds only if every listed document has capability `changelist` or `changedump`; the mapping list keeps its length and all but its first mapping, which is cut back to a prefix of itself |
| ResourceSync.TrimmedTrans | modules/invenio-resourcesyncclient/invenio_resourcesyncclient/utils.py:112-122 | cutting the first mapping back twice is cutting it back once, so the loop over documents keeps the prefix invariant |
| ResourceSync.RetryTrims | modules/invenio-resourcesyncclient/invenio_resourcesyncclient/utils.py:133-142 | one `single_sync_incremental` call changes only the first mapping, to a prefix of itself |
| JsonValues.GetPutSame | modules/weko-search-ui/weko_search_ui/utils.py:205 | after `d[k] = v`, `d.get(k)` is `v` |
| JsonValues.GetPutOther | modules/weko-search-ui/weko_search_ui/utils.py:205 | `d[k] = v` leaves every other key's value alone |
| JsonValues.KeysPut | modules/weko-search-ui/weko_search_ui/utils.py:205 | `d[k] = v` keeps the key order, appending a new key at the end |
| JsonValues.PutDistinct | modules/weko-search-ui/weko_search_ui/utils.py:205 | `d[k] = v` keeps the keys distinct |
| Strings.RSplitRoundTrip | modules/invenio-resourcesyncclient/invenio_resourcesyncclient/utils.py:64-65 | for text with a separator, `rsplit(c, 1)[0]`, the separator and `split(c)[-1]` rebuild the text |
| Strings.SplitJoin | modules/weko-records-ui/weko_records_ui/views.py:410 | splitting the join of separator-free pieces gives the pieces back |
| Strings.JoinSplit | modules/weko-records-ui/weko_records_ui/views.py:410 | joining the pieces of a split gives the text back |

## Left out

- I/O, the database and the search engine:
  - record loading and commits, indexing, redirects and template rendering in `delete_records`, `publish`, `export` and `get_items_metadata`;
  - `print` and logging;
  - the outer loop of `delete_records` over the search hits, which only applies `DeletePathFromRecord` to each record.
- Operations outside this model:
  - `get_journal_info`, `import_items`, `read_stats_tsv`, `get_item_type`, `get_tree_items`, `get_feedback_mail_list` and `get_content_workflow` of weko_search_ui/utils.py;
  - `sync_audit` of invenio_resourcesyncclient/utils.py, which only counts what the resync library compares.
- The jsonschema validator, the resync `Client` and `Sitemap`, and the serializer `export` imports are foreign code. Each is a function parameter.
- `define_default_dict` / `defaultify`: their effect, creating a missing intermediate dict on lookup, is built into `SetNestedItem`.
- The final `json.loads(json.dumps(result))` of `parse_to_json_form` is the identity on these values and is not modelled.
- In-place aliasing of the nested dicts: `set_nested_item` and `convert_nested_item_to_list` mutate the dict and return it. The model returns the new value, so sharing between dicts is not captured.
- DcExtension.DcWekoExtension.DcPublisher: the getter returns the `_dcelem_publisher` list object itself, so a caller that mutates it changes the extension's state. The model returns the value of the list, so this aliasing is not captured.
- XML tags: a node of `DcExtension` carries its `DcElement` rather than the qualified tag string `{http://purl.org/dc/elements/1.1/}name`, and its language rather than the `{http://www.w3.org/XML/1998/namespace}lang` attribute. The spelling of these names is not modelled.
- `isnumeric` is modelled for the ASCII digits only. Other Unicode numeric characters are not.
- The role objects of `check_permission` are modelled by their names.
- DcExtension.DcWekoExtension: the `dc_*` setters inherited from the feedgen base class for the other fourteen elements are foreign code. Their values are the `stored` map, which only `DcPublisher` sets here.
- DcExtension.DcWekoExtension: the base and the entry extension are one class. The entry class only adds `extend_atom`, `extend_rss` and its own `extend_jpcoar`, kept here as `ExtendAtom`, `ExtendRss` and `ExtendJpcoarEntry`.
- ResourceSync.SchemeHostOf: `urlsplit` is modelled for the scheme (lower-cased) and the `//`-network location only. It does not model Python's rule that a scheme followed only by digits is a port.
- ResourceSync.SingleSyncIncremental: the client is a function of the current mappings and URL. A client whose answer changes between identical calls is not modelled. `Spins` stands for the loop the source repeats forever.
- ResourceSync.SyncIncremental: the `except MapperError` branch of `sync_incremental` cannot be reached, because `single_sync_incremental` catches every mapping error itself. The model has no such outcome. `raise('Bad URL…')` raises a TypeError in Python 3, since a string is not an exception, and is modelled as `TypeError`.
- ResourceSync.SyncDocuments: only the success case is stated about the documents. Which error a failing document gives is not stated. The mapping list is stated to keep its length and all but the first mapping, and the first mapping to be cut back to a prefix of itself; how far each document's retries cut it is not stated.

## Findings

| source | as written | input that shows it | evidently intended | confidence | as-written member | corrected member |
|---|---|---|---|---|---|---|
| modules/weko-search-ui/weko_search_ui/utils.py:404-411 | `errors` is assigned only for a record with metadata, but read for every record | records `[with metadata rejected by the schema, without metadata]`; or a first record without metadata | a record without metadata gets `errors: None` | high (not executed) | ImportValidation.StaleErrorsExample, ImportValidation.UnboundErrorsExample | ImportValidation.HandleValidateItemImport |
| modules/weko-search-ui/weko_search_ui/utils.py:68 | a path matches the deleted index when its text ends with the index id | deleting index 2 removes the path `5/12` of a record filed under index 12, and deletes the record when that is its only path | a path matches when its last `/`-segment is the index id | high (not executed) | SearchUiAdmin.RemovedAsWritten, SearchUiAdmin.SuffixMatchExample | SearchUiAdmin.RemovePath, SearchUiAdmin.DeletePathFromRecord |
