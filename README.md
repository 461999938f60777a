# AFM data platform — a verified model of its core

The AFM data platform serves atomic-force-microscope measurements: a Python
backend reads measurement pickles named by a `#`-separated file-name
convention, reshapes their columnar tables into records, searches, pages
and summarises them, and prepares them for MongoDB; a Vue front-end
searches and groups the measurements, orders their columns, keeps a
viewing history and a group of measurements, exports CSV and shows
loading progress. Three scripts check, generate and illustrate the data
files.

This project models that logic in Dafny, one module per source file:

| module | source |
|---|---|
| `FileParser` | `api/utils/file_parser.py` — the file-name codec, the live file list filtered against its pickles, the cache summary, the search and the profile/image path builders |
| `DataConverter` | `api/utils/data_converter.py` — summary and detail tables to records |
| `AfmRoutes`, `Routes`, `ImageRoutes` | `api/afm_routes.py`, `api/routes.py`, `api/image_routes.py` — the decision logic of the handlers, each response a datatype with its status |
| `MongoClient`, `MongoIntegration` | `api/utils/mongo_client.py`, `api/utils/mongo_integration.py` — key sanitising, document preparation, batching, cleanup and date statistics; the file-system fallbacks |
| `MeasurementDataService`, `UserActivity` | `api/measurement_data_service.py`, `api/user_activity.py` |
| `CheckAfmFiles`, `GenerateAfmData`, `GenerateProfileTiff` | the scripts `check_afm_files.py`, `generate_afm_data.py`, `generate_profile_tiff.py` |
| `ExportUtils`, `DataStore`, `KeyOrdering`, `DataService`, `Search`, `LoadingProgress`, `AfmService`, `SearchApi`, `IdentifierData` | the front-end files of the same names under `front-end/src/` |
| `Common`, `Text`, `Sorting` | shared: decoded values, insertion-ordered dictionaries, Python/JavaScript string operations, stable sorting |

A decoded pickle or JSON payload is a `Value` (string, integer, real,
boolean, null, list, or a dictionary kept in insertion order, because
"first group", "last writer wins" and the displayed key order depend on
that order). The file system, pickles, MongoDB, HTTP, clocks and random
numbers are inputs: a directory listing is a sequence of names, "file
exists" is membership in a set, a loaded pickle is a `Value`, the time is a
parameter. Where the source mutates state (the data service's cache, the
Pinia store, the composables, the loop-built record lists) the model is a
class or a method with loop invariants, proved against a function that
states the same result on values; the properties are proved about that
function.

Where the source's own documentation (its docstrings and comments) and its
code disagree, the model follows the code. Notable cases: `afm_bp` and `image_bp` are not
registered with the application, so none of their handlers is reachable;
`api/routes.py` serves some of the same URLs with handlers of its own,
and `get_images_by_type` and `serve_image_by_type` are served by nothing
(the model states what each handler would answer); the profile and image path builders
(`api/utils/file_parser.py:449-502`) take three parameters, while
`api/afm_routes.py:209` and `api/image_routes.py:47,122` call them with
four, which raises a `TypeError` that the handlers turn into a 500
response — the model shows that response rather than a site-suffix probe;
`check_afm_files.py`, `generate_afm_data.py` and the backend parse file
names three different ways, and the generator writes profile names without
the `#` the backend looks for.

## Model

| member | source | states |
|---|---|---|
| FileParser.ParseFilename | api/utils/file_parser.py:13-65 | a name parses exactly when at least four non-empty `#` segments remain after removing `.csv` and `.pkl`; the fields come from the first four segments in order, later ones are ignored, and `filename` is the name given |
| FileParser.LotIdPrecedence | api/utils/file_parser.py:30-38 | the lot id is the text before the first `[` if there is one, else the text before the first `_`, else the whole segment |
| FileParser.SlotInfoSplit | api/utils/file_parser.py:40-43 | the slot is the text before the first `_`; with an `_` the segment is slot, `_`, info; without one the info is `"standard"` |
| FileParser.FormatDateLayout | api/utils/file_parser.py:45-52 | the formatted date always starts with `20` and, for six or more characters, is `20YY-MM-DD`; the fallback to the raw date never happens |
| FileParser.NoExtensionInEncoding | api/utils/file_parser.py:15 | a key written from clean fields contains neither `.csv` nor `.pkl`, so the extension stripping leaves it alone |
| FileParser.EncodedSegments | api/utils/file_parser.py:18 | the non-empty `#` segments of a written key are its parts |
| FileParser.ParseEncodeRoundTrip | api/utils/file_parser.py:8-65 | parsing a key written from encodable fields gives those fields back |
| FileParser.SlotInfoOf | api/utils/file_parser.py:41-43 | a slot without `_` joined to its info splits back into both |
| FileParser.EmptyLotDoesNotRoundTrip | api/utils/file_parser.py:31-33 | every lot segment starting with `[` parses to an empty lot id, and writing that back leaves too few segments to parse |
| FileParser.CheckPickleFileExists | api/utils/file_parser.py:72-105 | true exactly when the pickle directory exists and holds a name that parses to the same lot, slot, info and recipe |
| FileParser.LineEntryMeaning | api/utils/file_parser.py:169-186 | a line yields an entry exactly when it is not blank and its name (the text after `→` when present) parses and has a pickle; the entry is that parse with the 1-based line number as `id` and the tool name |
| FileParser.LoadAfmFileListLive | api/utils/file_parser.py:145-201 | a missing list file or pickle directory gives `[]`; otherwise the entries of the lines, in file order |
| FileParser.ReadLine | api/utils/file_parser.py:169-188 | one iteration of the listing loop adds exactly the line's entry, if it has one |
| FileParser.CollectSound | api/utils/file_parser.py:168-186 | every collected entry carries its own line number, and the ids strictly increase |
| FileParser.CollectComplete | api/utils/file_parser.py:168-186 | every line that has an entry is collected |
| FileParser.LiveEntriesSound | api/utils/file_parser.py:168-195 | the live list holds only entries of lines that parse and have a pickle, in file order |
| FileParser.LiveEntriesComplete | api/utils/file_parser.py:168-195 | every line that parses and has a pickle appears in the live list |
| FileParser.ParseAndCache | api/utils/file_parser.py:204-248 | the call succeeds exactly when the live list is non-empty and the directory and the pickle are written; nothing is written on failure; the cache written holds the live list and `total_files_processed` equal to its length |
| FileParser.LoadAfmFileList | api/utils/file_parser.py:108-143 | a readable cache supplies the measurements, otherwise the live list is used |
| FileParser.CacheRoundTrip | api/utils/file_parser.py:108-143 | reading back a freshly written cache gives the live list it was built from |
| FileParser.SearchAfmFiles | api/utils/file_parser.py:251-285 | an empty or blank query returns every measurement; otherwise exactly the measurements, in order and each once, with a field containing the lower-cased stripped query |
| FileParser.FilterByQuery | api/utils/file_parser.py:267-282 | the outer search loop keeps, in order, the measurements that match |
| FileParser.AnyFieldMatches | api/utils/file_parser.py:269-282 | the inner loop finds a match exactly when one of the six fields contains the query |
| FileParser.SearchByLot | api/utils/file_parser.py:264-281 | a query that starts the lot id keeps the measurement in whatever case it was typed |
| FileParser.FindPickleFilePath | api/utils/file_parser.py:294-328 | a key with fewer than three `_` parts or a missing directory gives none; otherwise the first pickle whose parse has the key's lot, slot and info |
| FileParser.KeyRoundTrip | api/utils/file_parser.py:299-305 | a key `lot_slot_info` with no `_` in lot or slot splits back into its three parts, whatever the info holds |
| FileParser.FindPointFilePath | api/utils/file_parser.py:331-422 | none for a bad key, a missing directory or a point `int()` rejects; otherwise the first file of the measurement whose `#_digits_Height.ext` digits equal the point padded to four |
| FileParser.PointCandidate | api/utils/file_parser.py:353-369 | the digits a profile or image name yields are exactly those the finder's tests extract |
| FileParser.TrailingDigits | api/utils/file_parser.py:363 | the longest all-digit suffix of a name |
| FileParser.GetPicklePathByFilename | api/utils/file_parser.py:425-446 | the path is the extension-free base plus `.pkl`, returned exactly when that file exists |
| FileParser.GetPointPathByFilename | api/utils/file_parser.py:449-501 | a path is returned exactly when the point is an integer and `<base>#_<NNNN>_Height.<ext>` exists, and it is that name |
| FileParser.PointFileNameDigits | api/utils/file_parser.py:456-460 | a built name ends in `_Height.<ext>` and the text between `#_` and that tail reads back as the point, negative points included |
| FileParser.PointSuffixOfBuiltName | api/utils/file_parser.py:363-368 | for a non-negative point the finder extracts from the builder's name exactly the padded point |
| FileParser.SitePointHasNoPath | api/utils/file_parser.py:456 | a point that starts with a digit and ends with a capital letter, like `1_UL`, is not an integer, so no path is built for it whatever files exist |
| CheckAfmFiles.ParseFilename | check_afm_files.py:43-55 | a name parses exactly when it has at least four `#`; date, recipe and slot are the pieces after the first, second and fourth `#`, the lot is the `_`-free prefix of the third, and the full name is kept |
| CheckAfmFiles.ParseEncodeRoundTrip | check_afm_files.py:43-55 | parsing a name written in the `#date#recipe#lot#slot#` layout gives its parts back, the lot cut at its first `_` |
| CheckAfmFiles.LotBeforeTime | check_afm_files.py:51 | a lot followed by `_time` parses to the lot alone |
| CheckAfmFiles.BracketNotHandled | check_afm_files.py:51 | on a bracketed lot without `_` the checker keeps the brackets while the backend parser cuts at `[`: the two parsers disagree |
| CheckAfmFiles.CheckKeysAll | check_afm_files.py:64-73 | a key list passes exactly when every membership test succeeds |
| CheckAfmFiles.CheckKeysFirst | check_afm_files.py:64-73 | a reported missing key is the first whose test fails |
| CheckAfmFiles.FindMissing | check_afm_files.py:65-67 | the membership loop returns at the first key that fails, and reports success otherwise |
| CheckAfmFiles.CheckDataFile | check_afm_files.py:57-81 | the verdict of a data file, valid exactly when the outcome is a valid one |
| CheckAfmFiles.CheckDataValid | check_afm_files.py:57-81 | a data file is valid exactly when it is a dict with `info`, `data_status` and `data_detail`, `info` holds the four info keys and `data_status` has a length, which is the reported point count |
| CheckAfmFiles.CheckDataAccepts | check_afm_files.py:64-78 | the four checks succeeding give a valid file |
| CheckAfmFiles.CheckDataMissing | check_afm_files.py:64-67 | a missing required key is the first of `info`, `data_status`, `data_detail` the content lacks |
| CheckAfmFiles.CheckProfile | check_afm_files.py:83-109 | a valid profile always reports 400 points |
| CheckAfmFiles.CheckProfileFile | check_afm_files.py:83-109 | the verdict of a profile file, valid exactly when the outcome is a valid one |
| CheckAfmFiles.CheckProfileValid | check_afm_files.py:83-109 | a profile is valid exactly when it is a dict whose `X`, `Y` and `Z` all have 400 elements |
| CheckAfmFiles.AxesPresent | check_afm_files.py:90-93 | a dict passes the axis loop exactly when it has `X`, `Y` and `Z` |
| CheckAfmFiles.InfosMeaning | check_afm_files.py:122-137 | every listed file is reported once, in listing order, with its check outcome and its parse |
| CheckAfmFiles.PresentMeaning | check_afm_files.py:143-153 | the empty value is never counted; any other value is counted once per parsed name carrying it |
| CheckAfmFiles.CountersMeaning | check_afm_files.py:143-153 | after a scan each counter has grown by the number of parsed names carrying that non-empty value |
| CheckAfmFiles.ValidPlusErrors | check_afm_files.py:139-140 | every scanned file is either valid or listed as an error, never both |
| CheckAfmFiles.AFMFileChecker.constructor | check_afm_files.py:25-41 | all statistics start empty and at zero |
| CheckAfmFiles.AFMFileChecker.ScanDirectory | check_afm_files.py:111-155 | every listed file is reported, the invalid ones also as errors, and the date, recipe and lot counters grow by the files' parsed fields; a missing directory changes nothing |
| CheckAfmFiles.AFMFileChecker.CheckAll | check_afm_files.py:163-185 | the data and then the profile directory are scanned and each one's total, valid count and errors recorded |
| CheckAfmFiles.Scan | check_afm_files.py:122-153 | the scan loop reports each file and counts its fields into the counters it is given |
| CheckAfmFiles.CountParsed | check_afm_files.py:143-153 | one parsed name adds its non-empty date, recipe and lot to the counters |
| CheckAfmFiles.SampleFiles | check_afm_files.py:157-161 | a list no longer than the sample size is returned whole; otherwise the drawn sample |
| CheckAfmFiles.ProfileNamesDistinct | check_afm_files.py:294 | different points get different profile names |
| CheckAfmFiles.Points | check_afm_files.py:293 | the points checked are 1 to n in order |
| CheckAfmFiles.CorrelateMeaning | check_afm_files.py:286-300 | each point from 1 to n is found or missing and not both, found exactly when its profile file exists |
| CheckAfmFiles.CorrelateFile | check_afm_files.py:276-307 | the per-file correlation step reports found and missing points, or an error when the data file cannot be read |
| CheckAfmFiles.Reports | check_afm_files.py:275-307 | one report per sampled data file, in order |
| CheckAfmFiles.CheckFileCorrelation | check_afm_files.py:262-307 | a missing data directory reports nothing; otherwise one correlation report per sampled data file |
| GenerateAfmData.ParseFilenameMeaning | generate_afm_data.py:6-44 | a name parses exactly when at least three `#` remain once `.csv` is removed; date and recipe are the second and third pieces, and a missing fifth piece leaves the slot defaults |
| GenerateAfmData.SlotMeasurement | generate_afm_data.py:28-32 | with an `_`, slot and measurement are the first two `_`-free tokens at the front of the segment and later tokens are dropped |
| GenerateAfmData.SlotDefaults | generate_afm_data.py:26-34 | without an `_` the slot is the whole segment (`"01"` when it is empty) and the measurement is `"1"` |
| GenerateAfmData.MeasurementDiverges | generate_afm_data.py:30-32 | this parser keeps only the second token as the measurement where the backend parser keeps everything after the slot |
| GenerateAfmData.AgreesWithBackend | generate_afm_data.py:6-44 | on a name in the backend's layout with a one-token info both parsers read the same date, recipe, lot, slot and measurement |
| GenerateAfmData.DatePartsDigits | generate_afm_data.py:49-52 | six digits `YYMMDD` are read as the three two-digit numbers |
| GenerateAfmData.LeapDay | generate_afm_data.py:50-54 | in 2000-2099 the 29th of February is a valid date exactly when the two-digit year is a multiple of four |
| GenerateAfmData.InfoEntriesNames | generate_afm_data.py:60-64 | the info section names the parsed lot, recipe and slot (`S` + slot) |
| GenerateAfmData.InfoEntriesStart | generate_afm_data.py:65 | the info section holds the formatted start time |
| GenerateAfmData.InfoEntriesTool | generate_afm_data.py:66 | the tool is always `MAP608` |
| GenerateAfmData.InfoEntriesMeasurement | generate_afm_data.py:68 | the info section holds the parsed measurement |
| GenerateAfmData.PointNameInjective | generate_afm_data.py:77 | different point numbers give different `i_UL` names |
| GenerateAfmData.StatColumnOrder | generate_afm_data.py:80-106 | with the draws in their ranges, one value per item name, and the minimum lies below the mean and the maximum above it |
| GenerateAfmData.DataStatus | generate_afm_data.py:71-109 | one status group per point |
| GenerateAfmData.DataStatusKeys | generate_afm_data.py:76-84 | the groups are keyed `1_UL` .. `n_UL` in order |
| GenerateAfmData.PointNamesUnique | generate_afm_data.py:76-77 | no two points share a key |
| GenerateAfmData.StatusGroupShape | generate_afm_data.py:84-107 | a group holds `ITEM` and the three height columns in that order, each column with one value per item |
| GenerateAfmData.DataDetail | generate_afm_data.py:111-143 | one detail group per point |
| GenerateAfmData.DataDetailKeys | generate_afm_data.py:116-141 | the detail section has the same point keys as the status section |
| GenerateAfmData.DetailGroupShape | generate_afm_data.py:120-139 | a point's `Point No` column is 1..m and every other column has m values, in the source's key order |
| GenerateAfmData.SectionsPassCheck | generate_afm_data.py:159-163 | three sections whose info holds the four checked keys pass the checker's data-file rules, one point per status group |
| GenerateAfmData.GeneratedPassesCheck | generate_afm_data.py:145-163 | every file the generator writes passes the checker's data-file rules with its drawn point count |
| GenerateProfileTiff.GeneratedPoints | generate_profile_tiff.py:7-16 | a file written by the AFM data generator counts as its own number of points |
| GenerateProfileTiff.FallbackPoints | generate_profile_tiff.py:12-18 | a file that cannot be read or has no `data_detail` dict counts as five points |
| GenerateProfileTiff.RowsAt | generate_profile_tiff.py:29-47 | grid cell `(i, j)` is appended at index `i * g + j` |
| GenerateProfileTiff.CheckAxes | generate_profile_tiff.py:22-26 | the profile checker accepts three axes exactly when each holds 400 values |
| GenerateProfileTiff.GenerateProfileData | generate_profile_tiff.py:20-49 | the nested loops build exactly the profile of the `g` by `g` grid |
| GenerateProfileTiff.ProfileCells | generate_profile_tiff.py:29-47 | each axis holds `g * g` values, and cell `(i, j)` has the `i`-th X line, the `j`-th Y line and the drawn height |
| GenerateProfileTiff.CoordEnds | generate_profile_tiff.py:31-32 | the grid lines run from -50 to 50 |
| GenerateProfileTiff.ProfileCheckAccepts | generate_profile_tiff.py:148 | the profile checker accepts a generated profile exactly for the 20-line grid the script uses |
| GenerateProfileTiff.Le32Value | generate_profile_tiff.py:80 | the four masked shifts of a 32-bit field read back as the number modulo 2^32 |
| GenerateProfileTiff.FileHeaderLayout | generate_profile_tiff.py:74-83 | the 14-byte file header holds `BM`, the file size `54 + 3wh` modulo 2^32, zero reserved bytes and the pixel offset 54 |
| GenerateProfileTiff.InfoHeaderSize | generate_profile_tiff.py:86-89 | the info header is 40 bytes and holds the width and the height modulo 2^32 |
| GenerateProfileTiff.InfoHeaderFields | generate_profile_tiff.py:86-98 | the info header's own size is 40, one plane, 24 bits per pixel, no compression, 2835 pixels per metre either way, no palette |
| GenerateProfileTiff.PixelIndex | generate_profile_tiff.py:107 | the source's index `(y * w + x) * 3` is the start of row `y` plus `3x` |
| GenerateProfileTiff.CreateSimpleBmp | generate_profile_tiff.py:72-112 | the bytes written are the file header, the info header and the pixel rows |
| GenerateProfileTiff.PixelRowsAt | generate_profile_tiff.py:104-112 | rows are stored bottom-up in blue-green-red order: byte `c` of pixel `x` of stored row `r` is byte `2 - c` of pixel `x` of image row `h - 1 - r`, `3wh` bytes in all |
| GenerateProfileTiff.WritePoints | generate_profile_tiff.py:142-164 | the profile and image files of points `1..n` of one data file, in order |
| GenerateProfileTiff.WriteFiles | generate_profile_tiff.py:135-164 | a `.csv` name writes the files of its points; any other name writes nothing |
| GenerateProfileTiff.WriteAll | generate_profile_tiff.py:131-164 | the outer loop writes the files of every listed name in order, and the counters equal the number of files written |
| GenerateProfileTiff.GenerateAll | generate_profile_tiff.py:114-173 | the files written for the non-blank stripped lines of the list, in order, with the two counters |
| GenerateProfileTiff.ReplaceExtension | generate_profile_tiff.py:140 | on a dotless base plus an extension, `replace` rewrites just the extension |
| GenerateProfileTiff.WrittenProfilesAreChecked | generate_profile_tiff.py:140-144 | for a listed name `b.csv` the profile names written are those the file checker looks up for the data file `b.pkl` |
| GenerateProfileTiff.BackendLooksForHash | generate_profile_tiff.py:144 | the backend's lookup for `b.csv` asks for `b#_NNNN_Height.pkl`, which the script writes only for a base `b#`, never for `b` itself |
| GenerateProfileTiff.PointFilesAt | generate_profile_tiff.py:142-157 | the files of one data file are those of points `1..n`, in order |
| GenerateProfileTiff.PointFilesDistinct | generate_profile_tiff.py:144 | different points get different file names |
| GenerateProfileTiff.WrittenLength | generate_profile_tiff.py:134-164 | one profile and one image per point of every listed `.csv` name |
| GenerateProfileTiff.WrittenStem | generate_profile_tiff.py:144-157 | the `k`-th profile and the `k`-th image share their stem |
| DataConverter.StatusRows | api/utils/data_converter.py:50-67 | one record per statistic, record `i` built from statistic `i` |
| DataConverter.ConvertDataStatusToRecords | api/utils/data_converter.py:6-70 | the nested loops compute the conversion of the status table |
| DataConverter.BuildStatusRecord | api/utils/data_converter.py:52-64 | the record of one statistic is built across all groups in insertion order |
| DataConverter.WriteGroupColumns | api/utils/data_converter.py:57-64 | the column loop of one group writes the group's cells at `i` |
| DataConverter.StatusNoRecords | api/utils/data_converter.py:30-46 | an empty table, or one whose first group has no `ITEM`, gives no records; the conversion fails exactly when `ITEM` is not iterable |
| DataConverter.StatusRecordNamed | api/utils/data_converter.py:46-52 | one record per entry of the first group's `ITEM` list, in order, record `i` named `items[i]` |
| DataConverter.ColumnKeeps | api/utils/data_converter.py:58-64 | a column write leaves existing keys alone unless it is a non-`ITEM` list column of that name with a cell at `i`, so nothing is read out of range |
| DataConverter.GroupWrites | api/utils/data_converter.py:57-64 | within a group the last column of a name with a cell at `i` decides that name |
| DataConverter.StatusColumnLastWins | api/utils/data_converter.py:55-64 | when several groups share a column name the last group with a cell at `i` wins |
| DataConverter.GroupKeyFirst | api/utils/data_converter.py:61-62 | a group's key takes the first qualifying cell at `i` of that group |
| DataConverter.StatusGroupKey | api/utils/data_converter.py:55-64 | with distinct group keys that differ from `ITEM` and from every column name, the record holds under each group's key the first cell at `i` of that group |
| DataConverter.DetailRows | api/utils/data_converter.py:87-94 | one row per index below the `Point No` length |
| DataConverter.ConvertDataDetailToRecords | api/utils/data_converter.py:73-96 | the loops compute the conversion of the detail table |
| DataConverter.GroupRecords | api/utils/data_converter.py:83-94 | the rows of one group, or the failure of `len(Point No)` |
| DataConverter.BuildDetailRows | api/utils/data_converter.py:87-94 | the row loop of one group builds rows `0..n-1` |
| DataConverter.WriteRowCells | api/utils/data_converter.py:90-92 | each list column with a cell at `i` is copied into the row |
| DataConverter.WriteCellsGet | api/utils/data_converter.py:90-92 | after the column loop a key holds the last cell at `i` of a column of that name, or its previous value |
| DataConverter.DetailRowFields | api/utils/data_converter.py:88-92 | row `i` carries the group key as `measurement_point` and `i` as `index` unless a column of that name overrides them, and every column's cell at `i`; a column shorter than `i + 1` is absent |
| DataConverter.GroupDetailRows | api/utils/data_converter.py:83-94 | a group with `Point No` emits exactly `len(Point No)` rows, row `i` in position `i` |
| DataConverter.DetailAppend | api/utils/data_converter.py:82-94 | the rows of consecutive groups are concatenated in insertion order |
| DataConverter.DetailNonePrefix | api/utils/data_converter.py:83-85 | a failure in one group fails the whole conversion |
| DataConverter.DetailSkipsGroup | api/utils/data_converter.py:83 | a group without `Point No` contributes no rows |
| AfmRoutes.SummaryRows | api/afm_routes.py:92-98 | at most one record per candidate row, and every record kept is a non-empty dict |
| AfmRoutes.SummaryToRecords | api/afm_routes.py:84-103 | the summary loop computes the summary records of the pickle's `summary` value |
| AfmRoutes.TabularRowCount | api/afm_routes.py:88-98 | a dict with `Site` and `ITEM` and a list-valued `Site` gives exactly `len(Site)` records, record `i` holding every list column's cell at `i` |
| AfmRoutes.MaxListLen | api/afm_routes.py:116 | the length of the longest list column |
| AfmRoutes.MaxListLenAttained | api/afm_routes.py:116 | some list column attains that length |
| AfmRoutes.GroupRowsOf | api/afm_routes.py:117-122 | one row per index below the row count, each tagged with the group key |
| AfmRoutes.DetailToRecords | api/afm_routes.py:106-127 | the detail loop computes the detail records of the pickle's `data` value |
| AfmRoutes.GroupRecords | api/afm_routes.py:113-122 | the rows one detail group emits |
| AfmRoutes.GroupRows | api/afm_routes.py:117-122 | the row loop of one group builds its rows in order |
| AfmRoutes.GroupRowsLongest | api/afm_routes.py:114-122 | a dict group with list columns emits as many rows as its longest list column (not the shortest), each tagged with `measurement_point` and holding every list column's cell at `i` |
| AfmRoutes.DetailSkips | api/afm_routes.py:114 | groups that are not dicts or hold no list emit nothing |
| AfmRoutes.AvailableFromDetail | api/afm_routes.py:131-133 | a dict detail always succeeds and lists exactly its keys, each once per key, in string order |
| AfmRoutes.EmptyDetailHidesSites | api/afm_routes.py:131-137 | an empty detail dict hides the summary sites altogether |
| AfmRoutes.SiteValuesRaises | api/afm_routes.py:136 | collecting the sites fails exactly when some record raises: a scalar record under `in`, a list or string record holding `Site` under `.get`, or an unhashable list or dict `Site` value |
| AfmRoutes.SiteKept | api/afm_routes.py:136 | every dict record's `Site` value, of any type, is collected |
| AfmRoutes.SiteFound | api/afm_routes.py:136 | every collected value is the `Site` value of some dict record |
| AfmRoutes.SiteValuesMeaning | api/afm_routes.py:136 | the collected values are exactly the `Site` values of the dict records that have one |
| AfmRoutes.AvailableFromSites | api/afm_routes.py:134-137 | otherwise the points fail exactly when collecting raises or the distinct sites mix strings and numbers; on success they are the distinct `Site` values, each once, in Python's order |
| AfmRoutes.AfmFileDetail | api/afm_routes.py:81-163 | the response fails exactly when the summary conversion or the points fail; the points listed come from the `data` value, defaulting to `{}` |
| AfmRoutes.NoDetailNoPoints | api/afm_routes.py:106-133 | a pickle without `data` has no detail records and lists no point |
| AfmRoutes.CoercePointNo | api/afm_routes.py:193-198 | absent stays none, the empty string is left as it is, and anything else becomes its `int()` value or none |
| AfmRoutes.CoercePadded | api/afm_routes.py:194-196 | a zero-padded point number coerces to its value |
| AfmRoutes.CoerceSiteLabel | api/afm_routes.py:195-198 | every site label that starts with a digit and ends with a capital letter, such as `1_UL`, becomes none |
| AfmRoutes.ZipXyz | api/afm_routes.py:274-280 | the first `n` points zipped from the three columns, point `i` holding the `i`-th value of each |
| AfmRoutes.Min3 | api/afm_routes.py:275 | the smallest of the three lengths |
| AfmRoutes.ConvertProfile | api/afm_routes.py:236-307 | the conversion loop computes the profile payload |
| AfmRoutes.FindCoordinateKeys | api/afm_routes.py:255-262 | each key whose lower-case form is `x`, `y` or `z` replaces the one found before it, so the last one wins |
| AfmRoutes.CoordinatePoints | api/afm_routes.py:264-282 | a dict with the three coordinate keys yields as many points as its shortest column, scalars counting as one-element lists, point `i` holding the `i`-th value of each |
| AfmRoutes.MissingCoordinate | api/afm_routes.py:264-291 | failure with 400 exactly when one of the three keys is missing |
| AfmRoutes.ProfileKeyPrecedence | api/afm_routes.py:240-247 | `data` takes precedence over `profile`, which takes precedence over `coordinates`, whatever else the dict holds |
| Routes.AsGroups | api/routes.py:118-131 | the status table is read as groups exactly when every one of its values is a dict, each group keeping its key and entries |
| Routes.StatusSummary | api/routes.py:118-131 | a group that is not a dict, or a first group without `ITEM`, ends in no summary records; otherwise there is one record per `ITEM` entry, record `i` built from statistic `i` of every group |
| Routes.DetailGroups | api/utils/data_converter.py:82-83 | the detail groups are read exactly when each is a dict or a value for which `'Point No' in` answers False |
| Routes.DetailGroupsDicts | api/utils/data_converter.py:82-83 | with only dict groups, every group is kept |
| Routes.DetailData | api/routes.py:134-144 | a group for which the `Point No` test raises, or a non-dict group that holds `Point No`, ends in no detail records; with dict groups the records are those of the detail conversion |
| Routes.DetailDataSkips | api/utils/data_converter.py:82-83 | a non-dict group without `Point No` contributes nothing: the records are those of the table without it |
| Routes.GridProfile | api/routes.py:149-166 | no detail or a first dict group without both columns gives no points; a scalar first group fails; the profile has at most 1000 points, point `i` at column `i % 50` and row `i // 50` |
| Routes.AfmFileDetail | api/routes.py:71-201 | a non-dict pickle is the 400 answer; a truthy non-dict `info`, `data_status` or `data_detail` fails; without `data_status` there are no summary records and no points, without `data_detail` no detail records and no profile, and the profile never exceeds 1000 points |
| Routes.GridRows | api/routes.py:160-166 | exactly `n` grid points, point `i` built from index `i` and the `i`-th height |
| Text.PyContains | api/routes.py:156 | `k in v` raises for scalars and is key membership on dicts |
| Routes.BuildGridProfile | api/routes.py:160-166 | the zip loop keeps the first `min(len(Point No), len(Left_H (nm)), 1000)` grid points |
| Routes.GridLayout | api/routes.py:163-165 | grid points lie on a 50-column grid of at most 20 rows, `y * 50 + x` gives back the index, and `z` is that index's height |
| Routes.AvailablePointsUnsorted | api/routes.py:112-147 | the available points are the `data_status` keys in insertion order, and none when `data_status` is missing |
| Routes.GridProfileSize | api/routes.py:150-166 | with list columns `Point No` and `Left_H (nm)` in the first detail group the grid profile has `min(len, len, 1000)` points |
| Routes.DetectKeys | api/routes.py:243-250 | every detected coordinate key is one of the dict's keys |
| Routes.DetectCoordinateKeys | api/routes.py:243-250 | the key-scanning loop computes the detected keys |
| Routes.DetectedX | api/routes.py:245-246 | the x key is the first key containing `x`, ignoring case |
| Routes.DetectedKeysMatch | api/routes.py:247-250 | a detected y key contains `y` and a detected z key contains one of `z`, `height`, `h` |
| Routes.LastHeightKeyWins | api/routes.py:249-250 | a final key naming a height that has neither `x` nor `y` always becomes the z key, whatever came before |
| Routes.Elements | api/routes.py:269-273 | indexing a list column reads its elements |
| Routes.ProfilePoints | api/routes.py:267-275 | exactly `n` points, point `i` built from the `i`-th values |
| Routes.MinLength | api/routes.py:260-262 | the smallest of `len(x)`, `len(y)` and, when the z data is truthy, `len(z)`, and equal to one of them |
| Routes.ProfileLengthNoZ | api/routes.py:254-275 | list columns with falsy z data pair the first `min(len(x), len(y))` values and carry no z |
| Routes.ProfileLengthZ | api/routes.py:260-275 | a non-empty z list further limits the points to `len(z)` and adds z to each |
| Routes.ZColumnPoints | api/routes.py:260-275 | the same for non-empty x and y lists |
| Routes.EmptyColumn | api/routes.py:260-267 | an empty x or y list gives no points |
| Routes.NoHeightKey | api/routes.py:254-257 | without a key naming a height the z data is `[]` and no point has z |
| Routes.ProfilePointFields | api/routes.py:268-273 | point `i` holds the `i`-th x and y values with None read as 0, and a z value exactly when there is z data |
| Routes.ProcessProfileData | api/routes.py:236-281 | the handler's processing computes the profile payload |
| Routes.ProcessColumns | api/routes.py:254-275 | the column processing computes the payload for the three columns |
| Routes.BuildProfilePoints | api/routes.py:267-275 | the `range(min_length)` loop builds exactly the profile points |
| Routes.ServeProfileImage | api/routes.py:362-367 | 404 exactly when no path was resolved or it does not exist, otherwise that file is sent as webp |
| ImageRoutes.SiteInfoOf | api/image_routes.py:24-36 | the site id, x and y pass through as strings; `point_no` becomes an integer exactly when it is a non-empty integer string, none when absent or not an integer, and stays as given when empty |
| ImageRoutes.DirFor | api/image_routes.py:155-167 | exactly the four image types have a directory, named `<type>_dir` |
| ImageRoutes.GlobbedImages | api/image_routes.py:185-189 | the globbed files are exactly the directory entries ending in one of the six image extensions |
| ImageRoutes.CollectImages | api/image_routes.py:186-189 | the `extend(glob)` loop, extension by extension, computes the globbed files |
| ImageRoutes.BasePatternClean | api/image_routes.py:195 | the base pattern holds neither `#` nor `.` |
| ImageRoutes.FilterByFilename | api/image_routes.py:196-202 | the filtering loop keeps the files whose name contains the base pattern or the whole filename |
| ImageRoutes.GetImagesByType | api/image_routes.py:135-224 | the handler computes the listing response |
| ImageRoutes.ImagesByTypeCases | api/image_routes.py:162-181 | the response is 400 exactly for an unknown type, and a missing directory lists no image |
| ImageRoutes.ListingContents | api/image_routes.py:185-211 | the listing is sorted by name and holds exactly the directory's image files that pass the filename filter, or all of them without a filename |
| ImageRoutes.EmptyPatternKeepsAll | api/image_routes.py:195-200 | a filename whose base pattern is empty keeps every image |
| ImageRoutes.LastIndex | api/image_routes.py:277 | the index of the last occurrence of a character, none exactly when it does not occur |
| ImageRoutes.Suffix | api/image_routes.py:277 | `Path.suffix` is empty or a dot-led, dot-free tail of the name |
| ImageRoutes.SuffixOf | api/image_routes.py:277 | a non-empty stem followed by a dotted, dot-free extension has that extension as its suffix |
| ImageRoutes.MimeOfCases | api/image_routes.py:278-287 | exactly the six image extensions have their own MIME type, the two JPEG and the two TIFF spellings sharing one, and anything else is `application/octet-stream` |
| ImageRoutes.MimeTypeOfExtension | api/image_routes.py:277-287 | the MIME type of a file is that of its lower-cased extension |
| ImageRoutes.UpperCaseExtension | api/image_routes.py:277 | `.PNG` and `.JPEG` are served as PNG and JPEG |
| ImageRoutes.ServeImageByType | api/image_routes.py:266-289 | 400 exactly for an unknown type, 404 exactly when the named file does not exist in the type's directory, otherwise that file with the MIME type of its name |
| MongoClient.Underscored | api/utils/mongo_client.py:63 | the key with exactly its `.` and `$` characters turned into `_`, length kept |
| MongoClient.UnderscoredIsReplace | api/utils/mongo_client.py:63 | the two chained `replace` calls compute that key |
| MongoClient.SafeKey | api/utils/mongo_client.py:63-66 | a key that starts with a digit after the replacement gets the prefix `field_`, and an empty key none |
| MongoClient.SafeKeyStorable | api/utils/mongo_client.py:63-66 | a sanitised key has no `.` or `$` and does not start with a digit, and a key that already had none of these is left as it is |
| MongoClient.SafeKeyIdempotent | api/utils/mongo_client.py:63-66 | sanitising a key twice gives what sanitising once gives |
| MongoClient.BuildDictGet | api/utils/mongo_client.py:60-67 | the dict filled by `sanitized[k] = v`, in order, holds under each key the value written last |
| MongoClient.BuildDictFrom | api/utils/mongo_client.py:60-67 | every entry of that dict was written |
| MongoClient.BuildDictUnique | api/utils/mongo_client.py:60-67 | writing keys that are all different builds the entries as written, in order |
| MongoClient.BuildDictUniqueKeys | api/utils/mongo_client.py:60-67 | the built dict has distinct keys |
| MongoClient.SanitizedPairs | api/utils/mongo_client.py:61-67 | one written pair per entry: its sanitised key and its recursively sanitised value |
| MongoClient.SanitizeStorable | api/utils/mongo_client.py:59-71 | after sanitising, no key at any depth of dicts and lists holds a `.` or a `$` or starts with a digit |
| MongoClient.CollidingKeysLastWins | api/utils/mongo_client.py:63-67 | keys that collide after sanitising keep the value of the last one |
| MongoClient.SanitizeStorableUnchanged | api/utils/mongo_client.py:59-71 | a value already storable, with distinct keys in each dict, is left exactly as it is |
| MongoClient.SanitizeUnique | api/utils/mongo_client.py:59-71 | every dict the sanitiser builds has distinct keys |
| MongoClient.SanitizeIdempotent | api/utils/mongo_client.py:59-71 | sanitising is idempotent |
| MongoClient.CheckDocumentSize | api/utils/mongo_client.py:74-96 | the size in MB is the serialised length over 1024², and a serialiser failure gives `(False, 0)` |
| MongoClient.SizeThreshold | api/utils/mongo_client.py:89-93 | a document is valid exactly when its length is at most the limit in bytes, so one of exactly the limit passes and one byte more fails |
| MongoClient.Remove | api/utils/mongo_client.py:181-184 | `del document[k]` drops that key and keeps every other |
| MongoClient.BaseDocument | api/utils/mongo_client.py:111-129 | the base document exists exactly when the parsed file has the six required keys, whose absence is a KeyError |
| MongoClient.FormattedDateDefault | api/utils/mongo_client.py:112-115 | the unique key is copied, and `formatted_date` falls back to `date` |
| MongoClient.ToolNameDefault | api/utils/mongo_client.py:121 | `tool_name` falls back to `MAP608` |
| MongoClient.Trimmed | api/utils/mongo_client.py:177-184 | a document within 15 MB is kept; over it `data_detail` and a non-dict `profileData` are dropped, and every other field is kept |
| MongoClient.PreparedStorable | api/utils/mongo_client.py:99-186 | every key of a prepared document, at every depth, is storable |
| MongoClient.TrimmedKeeps | api/utils/mongo_client.py:177-184 | trimming keeps the document storable |
| MongoClient.RemoveFrom | api/utils/mongo_client.py:182-184 | removing a key keeps a dict storable |
| MongoClient.ProfileDataPlacement | api/utils/mongo_client.py:145-162 | a profile of at most 5 MB is copied, otherwise the reference dict with the unique key and the size takes its place |
| MongoClient.CountOf | api/utils/mongo_client.py:324-357 | a count of the measurements of one outcome is at most their number |
| MongoClient.CountOfAppend | api/utils/mongo_client.py:319-357 | counts add up over consecutive batches |
| MongoClient.CountsPartition | api/utils/mongo_client.py:324-357 | each measurement is ready, oversize or raised, so the three counts sum to the number of measurements |
| MongoClient.Batches | api/utils/mongo_client.py:319-320 | each batch is non-empty and holds at most `batch_size` measurements |
| MongoClient.BatchesCover | api/utils/mongo_client.py:319-320 | the batches concatenate back to the measurements, in order, and every batch but the last is full |
| MongoClient.RunCounts | api/utils/mongo_client.py:319-373 | oversize measurements add to `skipped`, ready ones are all queued for writing, and the errors grow by at least the failed preparations |
| MongoClient.CleanRunErrors | api/utils/mongo_client.py:355-373 | when every bulk write succeeds the errors are exactly the failed preparations |
| MongoClient.StoreCounts | api/utils/mongo_client.py:296-386 | without a crash the run succeeds, reports every oversize document as skipped and every failed preparation as an error, whatever the batch size |
| MongoClient.StoreMeasurements | api/utils/mongo_client.py:283-397 | the batch loop computes the store result, including the not-connected and the crash results |
| MongoClient.ProcessBatch | api/utils/mongo_client.py:320-373 | one batch: its measurements in order, then one bulk write when something was queued |
| MongoClient.ClassifyBatch | api/utils/mongo_client.py:324-357 | the inner loop counts the queued, raised and oversize measurements of the batch |
| MongoClient.CleanupOld | api/utils/mongo_client.py:683-756 | a failure exactly when not connected, counting raises, or a real deletion raises; otherwise `found` is the count, a dry run or zero matches deletes nothing |
| MongoClient.TotalsOfFailures | api/utils/mongo_client.py:774-780 | failed results add nothing to either total |
| MongoClient.DryRunDeletesNothing | api/utils/mongo_client.py:769-789 | a dry run over all tools deletes nothing in total |
| MongoClient.TotalsAppend | api/utils/mongo_client.py:774-780 | each result is counted once in the totals |
| MongoClient.CleanupAllTools | api/utils/mongo_client.py:758-789 | one cleanup per tool of `MAP608`, `MAPC01`, `5EAP1501`, in order, with `found` and `deleted` summed over the successful ones |
| MongoClient.BucketOf | api/utils/mongo_client.py:848-857 | an age falls in exactly one of the buckets `<=30`, `31-90`, `91-180`, `181-300` and over 300 days |
| MongoClient.BucketsTotal | api/utils/mongo_client.py:837-863 | `total_measurements`, the bucket sum, is the number of documents grouped |
| MongoClient.AddToOnly | api/utils/mongo_client.py:846-857 | a month group adds its count to its own bucket and no other |
| MongoClient.CenturyYear | api/utils/mongo_client.py:839 | `int('20' + yy)` of two digits is the year `2000 + yy` |
| MongoClient.GroupDateOfDigits | api/utils/mongo_client.py:838-843 | a group with a two-digit year and a month from `01` to `12` converts to the 15th of that month of 20YY |
| MongoClient.GroupDateEmptyMonth | api/utils/mongo_client.py:840 | an empty month makes `int()` raise, so the group does not convert |
| MongoClient.GroupDate | api/utils/mongo_client.py:838-843 | a converted group is a date `datetime` accepts |
| MongoClient.AgeNextMonth | api/utils/mongo_client.py:843-844 | a group one month later is younger by exactly the length of the earlier month |
| MongoClient.Ages | api/utils/mongo_client.py:837-844 | the ages are computed exactly when every group converts |
| MongoClient.AgesMeaning | api/utils/mongo_client.py:837-846 | each group's age is the distance in days from today to the 15th of its month, and its count is kept |
| MongoClient.DateStatistics | api/utils/mongo_client.py:791-868 | `{}` exactly when not connected or when some group's year or month does not convert; otherwise the buckets of the groups' ages and their sum |
| Common.OrdinalNextMonth | api/utils/mongo_client.py:843-844 | the same day of the next month is as many days later as the month is long |
| Common.DaysBeforeDecember | api/utils/mongo_client.py:843-844 | the months before December hold 334 days, 335 in a leap year |
| Common.OrdinalNextYear | api/utils/mongo_client.py:843-844 | a day of January is 31 days after the same day of the December before, and a year's length after the same day of the January before |
| MongoIntegration.MongoEnabledCases | api/utils/mongo_integration.py:15-17 | MongoDB is disabled without a non-empty connection string or without `USE_MONGODB`, and enabled by a connection string with `USE_MONGODB` of `true` in any case |
| MongoIntegration.Measurements | api/utils/mongo_integration.py:20-49 | the MongoDB list when enabled and non-empty, otherwise the file-system list |
| MongoIntegration.Head | api/utils/mongo_integration.py:84-95 | `s[:limit] if limit else s`: all of `s` for 0, the first `min(limit, len)` for a positive limit, and all but the last `-limit` for a negative one |
| MongoIntegration.StrField | api/utils/mongo_integration.py:90-92 | `m.get(k, '')` is `''` when absent, and usable as a string exactly when the value is one |
| MongoIntegration.TryFilter | api/utils/mongo_integration.py:88-93 | a comprehension that does not raise keeps at most all elements, each one of the input |
| MongoIntegration.TryFilterTotal | api/utils/mongo_integration.py:88-93 | a comprehension whose condition never raises is the plain filter, same elements in the same order |
| MongoIntegration.TryFilterRaises | api/utils/mongo_integration.py:88-93 | a condition raising on any element makes the comprehension raise |
| MongoIntegration.LocalSearchMeaning | api/utils/mongo_integration.py:83-95 | a non-empty query keeps exactly the measurements whose filename, recipe or lot contains the lower-cased query, in input order, cut to `limit` |
| MongoIntegration.SearchHitMeaning | api/utils/mongo_integration.py:87-93 | a hit is a measurement one of whose three fields, lower-cased, contains the query |
| MongoIntegration.SearchWithFallback | api/utils/mongo_integration.py:65-95 | a non-empty MongoDB answer to a non-empty query is returned as it is; an empty query never fails; otherwise the result holds only loaded measurements, at most `limit` of them for a positive limit |
| MongoIntegration.EmptyQuery | api/utils/mongo_integration.py:65-84 | an empty query never asks MongoDB and returns the first `limit` measurements, or all of them when `limit` is 0 |
| MongoIntegration.DateRangeInclusive | api/utils/mongo_integration.py:158-161 | the range is inclusive: a date equal to `start` or `end` is kept, one before `start` is not |
| MongoIntegration.DateRangeMeaning | api/utils/mongo_integration.py:155-163 | with string dates the fallback keeps exactly the measurements dated within the range, in order |
| MongoIntegration.MeasurementByUniqueKey | api/utils/mongo_integration.py:98-128 | a non-empty MongoDB document, otherwise the first loaded measurement with an equal `unique_key`, or none |
| MongoIntegration.FirstSplit | api/utils/mongo_integration.py:124-126 | the loop returns at the first hit: a hit in a prefix is the first hit overall |
| MongoIntegration.DatesForCount | api/utils/mongo_integration.py:198-199 | a recipe collects one date per counted measurement |
| MongoIntegration.DatesForHas | api/utils/mongo_integration.py:196-199 | every measurement of a recipe has its date among the recipe's dates |
| MongoIntegration.RecipeOrderMembers | api/utils/mongo_integration.py:193-203 | the recipes grouped are exactly those with a positive count, so falsy recipe names are skipped |
| MongoIntegration.RecipeOrderDistinct | api/utils/mongo_integration.py:193-203 | each recipe is grouped once |
| Sorting.PySortedMeaning | api/utils/mongo_integration.py:204 | `sorted(dates)` succeeds exactly when there is at most one date or the dates are all strings or all numbers, and then returns the same dates, as often as given, in ascending order |
| MongoIntegration.StatOfRaises | api/utils/mongo_integration.py:204 | a recipe's row fails exactly when its dates cannot be sorted |
| MongoIntegration.OneDateRow | api/utils/mongo_integration.py:204-210 | a recipe measured once has that measurement's date, of any type, as its earliest and latest date |
| MongoIntegration.StatOfCount | api/utils/mongo_integration.py:205-210 | each row names its recipe and counts its measurements |
| MongoIntegration.StatOfBounds | api/utils/mongo_integration.py:204-209 | the earliest and latest dates of a row are dates of its recipe and bound the date of every measurement of its recipe |
| MongoIntegration.SortedBounds | api/utils/mongo_integration.py:204-209 | the first and last of the sorted dates bound every date |
| MongoIntegration.StatsOfMeaning | api/utils/mongo_integration.py:202-210 | one row per grouped recipe, in grouping order |
| MongoIntegration.RecipeStatistics | api/utils/mongo_integration.py:193-215 | the local statistics fail when a counted recipe is a list or dict (unhashable); otherwise they have one row per grouped recipe and are sorted by count, largest first |
| MongoIntegration.RecipeStatisticsMeaning | api/utils/mongo_integration.py:193-215 | one row per counted recipe, sorted by count with the largest first, rows of equal count keeping the order in which their recipes first appeared |
| MongoIntegration.GetRecipeStatistics | api/utils/mongo_integration.py:166-215 | a non-empty MongoDB aggregation, otherwise the local statistics |
| MongoIntegration.GroupingMeaning | api/utils/mongo_integration.py:193-199 | the defaultdict holds a record exactly for the counted recipes: the count and the dates in order |
| MongoIntegration.GroupByRecipe | api/utils/mongo_integration.py:195-199 | the grouping loop raises exactly when a counted recipe is a list or dict; otherwise it computes the recipe order and the records |
| MongoIntegration.UnhashableAt | api/utils/mongo_integration.py:196 | one unhashable counted recipe anywhere in the records makes the grouping raise |
| MongoIntegration.FormatStats | api/utils/mongo_integration.py:202-210 | the formatting loop computes the rows |
| MongoIntegration.StatsOfNone | api/utils/mongo_integration.py:202-210 | a row that fails to format makes the statistics fail |
| MeasurementDataService.DeltaSeconds | api/measurement_data_service.py:126 | `timedelta.seconds` is below a day's seconds: whole days are dropped |
| MeasurementDataService.FreshWindow | api/measurement_data_service.py:125-127 | within a day of the stamp the cache lasts exactly 300 seconds, it is fresh again exactly one day later, and a clock gone back makes it stale |
| MeasurementDataService.HitsMeaning | api/measurement_data_service.py:148-173 | the hits are newest first and are exactly the records containing every lower-cased term, each as often as in the data; an empty or blank query filters nothing |
| MeasurementDataService.PageMeaning | api/measurement_data_service.py:175-186 | `total` counts the hits before slicing, `data` is the window `[offset, offset + limit)` of them, and `has_more` says whether hits lie past it |
| MeasurementDataService.FilterByTerms | api/measurement_data_service.py:152-170 | the record loop keeps exactly the records matching all terms, in order |
| MeasurementDataService.GatherFieldsSound | api/measurement_data_service.py:208-213 | one record's scan keeps what was gathered, adds only its matching fields, stays duplicate-free and stops at the cap |
| MeasurementDataService.GatherFieldsComplete | api/measurement_data_service.py:208-213 | a record's scan that ends below the cap took every matching field |
| MeasurementDataService.GatherSound | api/measurement_data_service.py:198-216 | the scan over all records keeps the same properties |
| MeasurementDataService.GatherComplete | api/measurement_data_service.py:198-216 | a scan ending below the cap took every matching field of every record |
| MeasurementDataService.Suggestions | api/measurement_data_service.py:188-218 | a query shorter than two characters has no suggestions, and a non-negative `limit` caps them |
| MeasurementDataService.SuggestionsMeaning | api/measurement_data_service.py:188-218 | no suggestion for a query shorter than two characters; otherwise sorted, distinct, at most `limit`, each a field value containing the query case-insensitively, and every such value when fewer than `limit` came back |
| MeasurementDataService.SuggestionsSound | api/measurement_data_service.py:194-218 | the suggestions are sorted, distinct, capped and matching |
| MeasurementDataService.SuggestionsComplete | api/measurement_data_service.py:198-218 | below the cap every matching field value is suggested |
| MeasurementDataService.ScanFields | api/measurement_data_service.py:208-213 | the inner field loop with its `break` computes one record's scan |
| MeasurementDataService.CollectSuggestions | api/measurement_data_service.py:194-218 | the record loop, then `sorted(...)[:limit]`, computes the suggestions |
| MeasurementDataService.FindById | api/measurement_data_service.py:224-228 | the scan returns the first record with that `measurement_id`, or none |
| MeasurementDataService.TallyMeaning | api/measurement_data_service.py:243-252 | each distribution counts every record once under its value (default `Unknown`), lists each value once in order of first appearance, and sums to the number of records |
| MeasurementDataService.MinStr | api/measurement_data_service.py:261 | `min` is one of the strings and no greater than any |
| MeasurementDataService.MaxStr | api/measurement_data_service.py:262 | `max` is one of the strings and no less than any |
| MeasurementDataService.SummaryOf | api/measurement_data_service.py:230-264 | empty data exactly gives `{}`; otherwise `total_measurements` is the number of records and the earliest timestamp is no later than the latest |
| MeasurementDataService.SummaryMeaning | api/measurement_data_service.py:230-264 | for non-empty data every distribution sums to `total_measurements`, and the date range bounds every timestamp; empty data gives `{}` |
| MeasurementDataService.CountAll | api/measurement_data_service.py:243-252 | the counting loop computes the four distributions |
| MeasurementDataService.AFMDataService.constructor | api/measurement_data_service.py:12-15 | the service starts without a cache or a stamp |
| MeasurementDataService.AFMDataService.GetMeasurementData | api/measurement_data_service.py:121-141 | the cached list while fresh and no refresh is forced, else the parquet data or, failing that, the generated data, which becomes the cache stamped now |
| MeasurementDataService.AFMDataService.SearchMeasurements | api/measurement_data_service.py:143-186 | the page of the loaded data, and with no filtering query the sort in place leaves the cache itself sorted |
| MeasurementDataService.AFMDataService.QuickSearchSuggestions | api/measurement_data_service.py:188-218 | the suggestions over the loaded data, and a short query leaves the cache alone |
| MeasurementDataService.AFMDataService.MeasurementById | api/measurement_data_service.py:220-228 | the first loaded record with that id |
| MeasurementDataService.AFMDataService.SummaryStats | api/measurement_data_service.py:230-264 | the summary of the loaded data |
| UserActivity.WindowMeaning | api/user_activity.py:55 | `lines[-limit:]`: a positive limit keeps the last `limit` lines, 0 keeps them all because `-0` is 0, and a negative limit drops the first `-limit` lines |
| UserActivity.StopAt | api/user_activity.py:55-64 | the first line whose activity makes the user test raise, or the number of lines |
| UserActivity.ScanMeaning | api/user_activity.py:55-64 | the activities are the decodable lines up to the first raise, in the order scanned, that the user filter accepts; undecodable lines are skipped |
| UserActivity.ScanSkips | api/user_activity.py:56-61 | an undecodable line is skipped without stopping the scan |
| UserActivity.ScanKeeps | api/user_activity.py:57-59 | a decoded line that does not raise heads what the scan keeps when the filter accepts it |
| UserActivity.NoFilterKeepsAll | api/user_activity.py:58 | without a user filter every decodable line of the window comes back, newest first |
| UserActivity.ScanBound | api/user_activity.py:55-59 | the filter applies after the window is cut: at most one activity per line of the window, each of the requested user |
| UserActivity.ScanFromLines | api/user_activity.py:55-59 | every activity decodes from a line of the window |
| UserActivity.GetUserActivities | api/user_activity.py:43-66 | a missing log gives `[]`, otherwise the scan of the reversed window |
| UserActivity.ScanWindow | api/user_activity.py:55-61 | the `reversed(window)` loop computes the scan of the reversed window |
| UserActivity.ScanStep | api/user_activity.py:55-61 | one loop step: skip, stop, keep or drop the line |
| ExportUtils.IntString | front-end/src/utils/exportUtils.js:31 | `String(n)` of an integer is never empty |
| ExportUtils.Cell | front-end/src/utils/exportUtils.js:23-38 | `null` and `undefined` give an empty cell |
| ExportUtils.HeaderCells | front-end/src/utils/exportUtils.js:18 | one quoted cell per header |
| ExportUtils.RowCells | front-end/src/utils/exportUtils.js:22-39 | one cell per header |
| ExportUtils.RowTexts | front-end/src/utils/exportUtils.js:22-39 | one text per header |
| ExportUtils.DataLines | front-end/src/utils/exportUtils.js:21-40 | one line per row |
| ExportUtils.DataTexts | front-end/src/utils/exportUtils.js:21-40 | one record of texts per row |
| ExportUtils.ArrayToCsv | front-end/src/utils/exportUtils.js:9-44 | missing or empty data gives `''`, and otherwise the call throws exactly when the headers cannot be taken or a row is `null` |
| ExportUtils.FormatMeasurementInfo | front-end/src/utils/exportUtils.js:74-81 | `[info]` exactly for an object, arrays included, and `[]` for anything else |
| ExportUtils.FormatSummaryStatistics | front-end/src/utils/exportUtils.js:88-95 | an array unchanged, `[]` for anything else |
| ExportUtils.ReadQuoted | front-end/src/utils/exportUtils.js:31-36 | the reader of a quoted field (section 2 of RFC 4180) consumes input |
| ExportUtils.ReadBare | front-end/src/utils/exportUtils.js:38 | the reader of an unquoted field consumes input |
| ExportUtils.ReadRecord | front-end/src/utils/exportUtils.js:39 | the reader of one comma-separated record consumes input |
| ExportUtils.DoubleQuotesAbsent | front-end/src/utils/exportUtils.js:31 | a quote-free string is its own escape |
| ExportUtils.DoubleQuotesKeeps | front-end/src/utils/exportUtils.js:31 | escaping keeps exactly the characters present |
| ExportUtils.QuotedRoundTrip | front-end/src/utils/exportUtils.js:31-35 | reading a quoted field undoes the quote doubling |
| ExportUtils.BareRoundTrip | front-end/src/utils/exportUtils.js:38 | reading an unquoted field without `,` or line feed takes exactly the field |
| ExportUtils.CellQuoting | front-end/src/utils/exportUtils.js:31-38 | a cell is quoted exactly when its text holds `,`, a line feed or a quote, and a carriage return alone leaves it bare |
| ExportUtils.CellRoundTrip | front-end/src/utils/exportUtils.js:23-38 | every cell reads back as the text it stands for |
| ExportUtils.HeaderRoundTrip | front-end/src/utils/exportUtils.js:18 | a quote-free header reads back as itself |
| ExportUtils.JoinStep | front-end/src/utils/exportUtils.js:39 | a joined record reads as its first field, a comma and the rest |
| ExportUtils.HeaderLineRoundTrip | front-end/src/utils/exportUtils.js:18 | the header line reads back as the header names |
| ExportUtils.RowLineRoundTrip | front-end/src/utils/exportUtils.js:21-39 | a data line reads back as the texts of its cells |
| ExportUtils.DataLinesRoundTrip | front-end/src/utils/exportUtils.js:21-43 | the data lines, joined by a line feed, read back as the texts of every row |
| ExportUtils.CsvRoundTrip | front-end/src/utils/exportUtils.js:9-44 | the export reads back as 1 + `data.length` records: the header names, then each row's cell texts, each record as long as the header list |
| ExportUtils.DefaultHeadersFirstRow | front-end/src/utils/exportUtils.js:15 | without given headers the columns are the first row's keys, so a key seen only in a later row is not exported |
| ExportUtils.DataTextsAt | front-end/src/utils/exportUtils.js:21-40 | record `i` holds the texts of row `i` |
| ExportUtils.HeaderQuoteNotEscaped | front-end/src/utils/exportUtils.js:18 | a header's own quote is not escaped: `a"b` is written `"a"b"` and reads back as `a` |
| ExportUtils.MeasurementInfoExport | front-end/src/utils/exportUtils.js:74-81 | the information export of an object is one record of its keys and one of its values |
| DataStore.StampKeepsGroupKey | front-end/src/stores/dataStore.js:49-75 | stamping a measurement with `viewedAt` or `addedAt` keeps its group key |
| DataStore.Take | front-end/src/stores/dataStore.js:55-57 | the first `min(length, n)` items |
| DataStore.FilterSubsequence | front-end/src/stores/dataStore.js:83 | a filtered list is a subsequence of the list |
| DataStore.HistoryAdded | front-end/src/stores/dataStore.js:44-61 | the viewed measurement comes first, stamped; its group key occurs nowhere else; at most ten entries are kept; the others are the earliest previous entries with another key, in their previous order |
| DataStore.HistoryStaysUnique | front-end/src/stores/dataStore.js:44-61 | unique group keys in the view history stay unique |
| DataStore.GroupAdded | front-end/src/stores/dataStore.js:69-80 | adding is a no-op exactly when the group key is present; otherwise the stamped measurement goes last; the key is then present and keys stay unique |
| DataStore.GroupRemoved | front-end/src/stores/dataStore.js:82-85 | every item with that key goes, every other stays, in order |
| DataStore.RemoveUndoesAdd | front-end/src/stores/dataStore.js:69-85 | removing a measurement just added to a group without its key gives back the group |
| DataStore.HistorySaved | front-end/src/stores/dataStore.js:92-117 | an empty group saves nothing; otherwise the new snapshot comes first with the whole group and its size, the default name when none is given, no other snapshot has its name, and at most ten are kept |
| DataStore.LoadUnknown | front-end/src/stores/dataStore.js:119-125 | an unknown id leaves the group alone |
| DataStore.SaveThenLoad | front-end/src/stores/dataStore.js:92-125 | loading the snapshot just saved restores the group that was saved |
| DataStore.RemoveThenLoad | front-end/src/stores/dataStore.js:119-130 | after removing a snapshot, loading its id changes nothing, and every snapshot with another id is kept |
| DataStore.Store.constructor | front-end/src/stores/dataStore.js:10-32 | each list starts as what storage held, or `[]` |
| DataStore.Store.HistoryCount | front-end/src/stores/dataStore.js:36 | the number of viewed measurements |
| DataStore.Store.GroupedCount | front-end/src/stores/dataStore.js:37 | the number of grouped measurements |
| DataStore.Store.GroupHistoryCount | front-end/src/stores/dataStore.js:38 | the number of saved snapshots |
| DataStore.Store.AddToHistory | front-end/src/stores/dataStore.js:44-61 | the view history becomes the added history; the other lists are unchanged |
| DataStore.Store.ClearHistory | front-end/src/stores/dataStore.js:63-66 | the view history becomes empty; the other lists are unchanged |
| DataStore.Store.AddToGroup | front-end/src/stores/dataStore.js:69-80 | the group becomes the added group; the other lists are unchanged |
| DataStore.Store.RemoveFromGroup | front-end/src/stores/dataStore.js:82-85 | the group loses the key's items; the other lists are unchanged |
| DataStore.Store.ClearGroup | front-end/src/stores/dataStore.js:87-90 | the group becomes empty; the other lists are unchanged |
| DataStore.Store.SaveCurrentGroupAsHistory | front-end/src/stores/dataStore.js:92-117 | the snapshots become the saved history of the current group; the other lists are unchanged |
| Text.TrimMeaning | front-end/src/stores/dataStore.js:98 | `trim()` keeps the part of the description between its leading and trailing white space: only white space is removed, and the result neither starts nor ends with it |
| DataStore.Store.LoadGroupFromHistory | front-end/src/stores/dataStore.js:119-125 | the group becomes the first snapshot with that id's items, if any; the other lists are unchanged |
| DataStore.Store.RemoveFromGroupHistory | front-end/src/stores/dataStore.js:127-130 | every snapshot with that id goes; the other lists are unchanged |
| DataStore.Store.ClearGroupHistory | front-end/src/stores/dataStore.js:132-135 | the snapshots become empty; the other lists are unchanged |
| KeyOrdering.DisplayKeys | front-end/src/composables/useKeyOrdering.js:31-36 | exactly the keys of one measurement whose values are not objects, or are `null` |
| KeyOrdering.AllDisplayKeys | front-end/src/composables/useKeyOrdering.js:30-37 | exactly the displayable keys of some measurement |
| KeyOrdering.AvailableKeys | front-end/src/composables/useKeyOrdering.js:29-39 | the available keys are the distinct displayable keys, reordered by character code |
| KeyOrdering.AvailableKeysMeaning | front-end/src/composables/useKeyOrdering.js:29-39 | the available keys are sorted, have no duplicates, and are exactly the keys some measurement holds with a displayable value |
| KeyOrdering.ExtendedMeaning | front-end/src/composables/useKeyOrdering.js:42-45 | extending an order keeps it as a prefix, loses nothing, adds every key, and adds no duplicate |
| KeyOrdering.PickedGet | front-end/src/composables/useKeyOrdering.js:59-63 | the first loop copies exactly the measurement's values of the keys in the custom order |
| KeyOrdering.PickedKeys | front-end/src/composables/useKeyOrdering.js:59-63 | its keys are the custom-order keys the measurement has, in that order, each once |
| KeyOrdering.CompletedGet | front-end/src/composables/useKeyOrdering.js:66-70 | the second loop adds the measurement's values of the keys not yet copied, and nothing else |
| KeyOrdering.CompletedKeys | front-end/src/composables/useKeyOrdering.js:66-70 | its keys are those already copied, followed by the remaining keys in their original order |
| KeyOrdering.OrderedRowKeepsPairs | front-end/src/composables/useKeyOrdering.js:55-73 | reordering keeps every key-to-value pair of the measurement and adds none |
| KeyOrdering.OrderedRowKeys | front-end/src/composables/useKeyOrdering.js:55-73 | the custom-order keys the measurement has come first, in that order, and its other keys follow in their original order |
| KeyOrdering.Applied | front-end/src/composables/useKeyOrdering.js:52-74 | no measurements give `[]`, otherwise one reordered measurement per measurement |
| KeyOrdering.OrderedAll | front-end/src/composables/useKeyOrdering.js:55-73 | one reordered measurement per measurement, in order |
| KeyOrdering.IndexOf | front-end/src/composables/useKeyOrdering.js:78-90 | `indexOf` is -1 exactly for an absent key and otherwise the first position of the key |
| KeyOrdering.Swap | front-end/src/composables/useKeyOrdering.js:80-95 | two positions exchanged and every other kept |
| KeyOrdering.SpliceUp | front-end/src/composables/useKeyOrdering.js:81-82 | the two `splice` calls of `moveKeyUp` exchange the key with its predecessor |
| KeyOrdering.SpliceDown | front-end/src/composables/useKeyOrdering.js:93-94 | the two `splice` calls of `moveKeyDown` exchange the key with its successor |
| KeyOrdering.MovedUp | front-end/src/composables/useKeyOrdering.js:77-86 | the order keeps its length, an absent key changes nothing, and a present key now first occurs one place earlier, or stays first |
| KeyOrdering.MovedDown | front-end/src/composables/useKeyOrdering.js:89-98 | the order keeps its length, an absent key changes nothing, and a present key sits one place after its first position, or stays last |
| KeyOrdering.MovedUpMeaning | front-end/src/composables/useKeyOrdering.js:77-86 | moving up exchanges the key with its predecessor and nothing else, permutes the order, and does nothing for an absent key or the first one |
| KeyOrdering.MovedDownMeaning | front-end/src/composables/useKeyOrdering.js:89-98 | moving down exchanges the key with its successor and nothing else, permutes the order, and does nothing for an absent key or the last one |
| KeyOrdering.DownThenUp | front-end/src/composables/useKeyOrdering.js:77-98 | in an order without duplicates, moving a key down then up restores the order |
| KeyOrdering.UpThenDown | front-end/src/composables/useKeyOrdering.js:77-98 | likewise up then down |
| KeyOrdering.Label | front-end/src/composables/useKeyOrdering.js:123-138 | the label of the first entry for the key, and none exactly when the table has no entry for it |
| KeyOrdering.KeyDisplayName | front-end/src/composables/useKeyOrdering.js:122-139 | the name shown is the key itself or the label the table gives it, and never empty for a non-empty key |
| KeyOrdering.KeyDisplayNameMeaning | front-end/src/composables/useKeyOrdering.js:122-139 | a key the table lists shows its label, any other key shows itself |
| KeyOrdering.LabelKeysDistinct | front-end/src/composables/useKeyOrdering.js:123-136 | no two entries of the table share a key |
| KeyOrdering.KeysForDisplay | front-end/src/composables/useKeyOrdering.js:142-148 | one display row per key of the custom order |
| KeyOrdering.KeysForDisplayAt | front-end/src/composables/useKeyOrdering.js:143-147 | row `i` holds the `i`-th key, its display name, and whether the default order has it |
| KeyOrdering.ResetDisplay | front-end/src/composables/useKeyOrdering.js:101-148 | after a reset the display lists the seven default keys first, flagged as defaults, then the other available keys, not flagged |
| KeyOrdering.AddRowKeys | front-end/src/composables/useKeyOrdering.js:31-36 | the inner loop adds the displayable keys of one measurement to the key set, each once |
| KeyOrdering.KeyOrder.constructor | front-end/src/composables/useKeyOrdering.js:5-19 | the custom order starts as the default order and no key is available |
| KeyOrdering.KeyOrder.UpdateAvailableKeys | front-end/src/composables/useKeyOrdering.js:22-49 | no measurements clear the available keys and keep the order; otherwise the available keys are computed and the order is extended by them |
| KeyOrdering.KeyOrder.ApplyKeyOrdering | front-end/src/composables/useKeyOrdering.js:52-74 | the loop over the measurements computes the reordered list |
| KeyOrdering.KeyOrder.OrderRow | front-end/src/composables/useKeyOrdering.js:56-72 | the two `forEach` loops compute one reordered measurement |
| KeyOrdering.KeyOrder.MoveKeyUp | front-end/src/composables/useKeyOrdering.js:77-86 | the order becomes the moved-up order; the available keys stay |
| KeyOrdering.KeyOrder.MoveKeyDown | front-end/src/composables/useKeyOrdering.js:89-98 | the order becomes the moved-down order; the available keys stay |
| KeyOrdering.KeyOrder.ResetToDefault | front-end/src/composables/useKeyOrdering.js:101-111 | the order becomes the default order extended by the available keys |
| KeyOrdering.KeyOrder.SetCustomOrder | front-end/src/composables/useKeyOrdering.js:114-119 | an array replaces the order and anything else leaves it |
| KeyOrdering.ResetMeaning | front-end/src/composables/useKeyOrdering.js:101-111 | the reset order has no duplicates, starts with the default order, and holds exactly the default and available keys |
| KeyOrdering.UpdateMeaning | front-end/src/composables/useKeyOrdering.js:39-45 | updating keeps the previous order as a prefix, adds exactly the missing available keys, and keeps an order without duplicates free of them |
| DataService.FieldTexts | front-end/src/services/dataService.js:28-35 | the six searched properties as the texts `join` makes of them, empty for missing or `null` ones |
| DataService.ShortQueryReturnsAll | front-end/src/services/dataService.js:13-22 | a missing, blank or one-character query returns every measurement, latest `formatted_date` first, ties in their loaded order |
| DataService.QueryReturnsMatches | front-end/src/services/dataService.js:24-48 | otherwise exactly the matching measurements, each as often as it was loaded, latest first and stable among equal dates |
| DataService.FilterMeasurementsLocally | front-end/src/services/dataService.js:10-53 | missing data, or a `null` measurement that is read, ends in the `catch` with `[]`; otherwise no more measurements than were loaded come back, and all of them without a usable query |
| DataService.NormalizedIdempotent | front-end/src/services/dataService.js:24 | normalising twice is normalising once |
| DataService.NormalizedSearch | front-end/src/services/dataService.js:13-24 | searching with the normalised query gives what the raw query gives |
| DataService.FieldMatches | front-end/src/services/dataService.js:27-38 | a query occurring in one searched field, ignoring case, matches |
| DataService.WordMatchesField | front-end/src/services/dataService.js:27-38 | a query without spaces matches exactly when it occurs in one of the searched fields, ignoring case |
| DataService.SixAssignments | front-end/src/services/dataService.js:109-119 | six distinct properties written after the spread each hold their value, every other key keeps its own, the old keys stay first and in order, and none is duplicated |
| DataService.TransformedRenames | front-end/src/services/dataService.js:109-119 | `info`, `summaryData` and `profileData` hold the reply's `information`, `summary` and `data`, a missing one read as `null` |
| DataService.TransformedKeeps | front-end/src/services/dataService.js:109-119 | every other property of the reply data is kept, the reply's keys stay first and in order, and no key is duplicated |
| DataService.FetchMeasurementData | front-end/src/services/dataService.js:86-146 | a reply with truthy `success` and `data` becomes a success carrying the transformed data, any other a failure with the reply's `error` and `null` data |
| DataService.FetchSummaryData | front-end/src/services/dataService.js:148-173 | the `summaryData` of a successful load when truthy, otherwise a failure with `[]` |
| DataService.SummaryOfReply | front-end/src/services/dataService.js:96-165 | the summary succeeds exactly when the reply succeeded with truthy data whose `summary` is truthy, and it is then that `summary` |
| Search.Lookup | front-end/src/composables/useSearch.js:99-101 | `searchCache.get(k)` of a query the cache holds |
| Search.SearchStep | front-end/src/composables/useSearch.js:85-122 | one `performLocalSearch` over the loaded data |
| Search.CacheStepKeepsCacheOk | front-end/src/composables/useSearch.js:116-121 | the cache never holds more than 51 queries and never a query twice |
| Search.SearchStepKeepsCacheOk | front-end/src/composables/useSearch.js:85-122 | every search keeps those cache bounds |
| Search.CacheStepFresh | front-end/src/composables/useSearch.js:93-121 | a cache consistent with the filter stays so, and a long query shows the filter of its normalised form, hit or miss |
| Search.SearchStepFresh | front-end/src/composables/useSearch.js:85-122 | the cache is transparent: every search shows what filtering the loaded data with the raw query shows |
| Search.ShortQueriesAgree | front-end/src/composables/useSearch.js:86-90 | every short query filters like the empty one |
| Search.MissEvictsOldest | front-end/src/composables/useSearch.js:116-121 | a miss on a cache of more than 50 queries drops the oldest query and nothing else, and the new query is the latest entry |
| Search.ShortOrHitKeepsCache | front-end/src/composables/useSearch.js:86-103 | a short query and a cache hit leave the cache as it was |
| Search.FileValues | front-end/src/composables/useSearch.js:30-52 | the values of the simplified measurement, one per listed property |
| Search.FileKeysDistinct | front-end/src/composables/useSearch.js:32-48 | the fifteen listed properties are distinct |
| Search.ZipDistinct | front-end/src/composables/useSearch.js:30-52 | zipping distinct keys, each key reads back its own value |
| Search.FileEntryGet | front-end/src/composables/useSearch.js:30-52 | each property of the simplified measurement reads back its own value |
| Search.FileEntryCopies | front-end/src/composables/useSearch.js:30-40 | the simplified measurement has exactly the listed properties, once each, and the identification fields are copied as they are |
| Search.FileEntryTool | front-end/src/composables/useSearch.js:41 | `tool_name` defaults to the requested tool when missing or falsy |
| Search.FileEntryDirLists | front-end/src/composables/useSearch.js:44-48 | each directory list defaults to `["no_files"]` when missing or falsy |
| Search.LoadedFiles | front-end/src/composables/useSearch.js:23-52 | the simplified list on success, and none when the reply failed, its `data` is not a list or an entry is `null` |
| Search.LoadedFilesMeaning | front-end/src/composables/useSearch.js:30-52 | one simplified entry per listed measurement, in order |
| Search.AfterLoadMeaning | front-end/src/composables/useSearch.js:54-69 | after a load the results are the filter of the new files with the current query, and the cache is consistent with the new files |
| Search.DebounceSearch.constructor | front-end/src/composables/useSearch.js:8-13 | the query starts as the store's query when it is a string, else empty; no files, results or cache |
| Search.DebounceSearch.PerformLocalSearch | front-end/src/composables/useSearch.js:85-122 | the results and the cache become those of one search step |
| Search.DebounceSearch.FilterAndCache | front-end/src/composables/useSearch.js:106-121 | a miss shows the filter and inserts it after evicting the oldest query of a full cache |
| Search.DebounceSearch.LoadAllFiles | front-end/src/composables/useSearch.js:18-82 | a success stores the simplified files, clears the cache and searches with the current query; a failure or a throw empties files and results but keeps the cache |
| Search.DebounceSearch.TriggerSearch | front-end/src/composables/useSearch.js:159-169 | the query is set and searched at once |
| Search.DebounceSearch.ClearCache | front-end/src/composables/useSearch.js:172-175 | the cache becomes empty and nothing else changes |
| Search.DebounceSearch.CacheSize | front-end/src/composables/useSearch.js:178-180 | the number of cached queries |
| AfmService.ParamsForFour | front-end/src/services/afmService.js:39-54 | the four conditional appends, one after another |
| AfmService.ProfileParams | front-end/src/services/afmService.js:27-57 | the parameters are `tool` (default `MAP608`) followed by the site parameters |
| AfmService.ParamsForMeaning | front-end/src/services/afmService.js:39-54 | a pair is appended exactly for a listed key whose field is neither `null` nor `undefined`, and carries that field's text |
| AfmService.ParamsForKeys | front-end/src/services/afmService.js:39-54 | the appended keys are the present ones, in the listed order |
| AfmService.SiteKeysDistinct | front-end/src/services/afmService.js:39-54 | the four site keys are distinct |
| AfmService.SiteParamsMeaning | front-end/src/services/afmService.js:32-57 | a parameter is sent exactly for a present field of truthy site information, with that field's text, in the order `site_id`, `site_x`, `site_y`, `point_no`, each at most once; falsy site information sends none |
| AfmService.CeilSqrt | front-end/src/services/afmService.js:97 | `Math.ceil(Math.sqrt(n))`: the least `g` with `g * g >= n` |
| AfmService.Names | front-end/src/services/afmService.js:80-82 | one name per point, the point's string |
| AfmService.Entries | front-end/src/services/afmService.js:80-119 | one wafer entry per point |
| AfmService.PlacePoints | front-end/src/services/afmService.js:80-119 | the `forEach` loop pushes exactly the entries of all points, in order |
| AfmService.GetWaferData | front-end/src/services/afmService.js:66-141 | the method computes the wafer result of the response |
| AfmService.WaferData | front-end/src/services/afmService.js:66-141 | a failed result carries no points and an error, a successful one no error; the result fails exactly when the response is not a success with data, the points are not an array, or a point or the summary cannot be read; a thrown request carries its message |
| AfmService.WaferOnePerPoint | front-end/src/services/afmService.js:76-125 | a successful result has one entry per available point, in order, holding the point, `Point ` and its number, and its position token |
| AfmService.SplitPoint | front-end/src/services/afmService.js:82 | a point `num_token` without other `_` has `token` as its position and `num` as its number |
| AfmService.NamedPositions | front-end/src/services/afmService.js:88-94 | the five named positions `UL`, `UR`, `LL`, `LR`, `C` get their fixed coordinates, whatever the letter case |
| AfmService.UnnamedGoesToGrid | front-end/src/services/afmService.js:95-99 | a point without a position token goes to its grid cell |
| AfmService.GridCellsDistinct | front-end/src/services/afmService.js:95-99 | distinct points get distinct grid cells, both coordinates in `-g .. g - 2` for `g = ceil(sqrt(n))` |
| AfmService.RowInGrid | front-end/src/services/afmService.js:99 | the row of an index below `g * g` is below `g` |
| AfmService.PointValueMeaning | front-end/src/services/afmService.js:103-108 | the value is the MEAN row's truthy entry for the point, and otherwise a default in `75 .. 125` |
| AfmService.FindMeanMeaning | front-end/src/services/afmService.js:105 | the MEAN row is the first summary item whose `ITEM` is `MEAN`, reached without passing a `null` item |
| IdentifierData.IntStringInjective | front-end/src/dummy/identifierData.js:22-24 | different wafer numbers print differently |
| IdentifierData.GroupKeyParts | front-end/src/dummy/identifierData.js:23-24 | for a fab and a lot id without `_`, the group key splits back into fab, lot id and wafer number, and is the fab followed by the lot/wafer key |
| IdentifierData.GroupKeyInjective | front-end/src/dummy/identifierData.js:24 | such a group key determines the fab, the lot and the wafer |
| IdentifierData.DatasetOrdered | front-end/src/dummy/identifierData.js:67 | the dataset holds exactly the generated rows, newest `event_time` first |
| IdentifierData.SearchMeasurementHistory | front-end/src/dummy/identifierData.js:72-83 | at most twenty rows come back, all from the dataset; without a query they are its first twenty rows |
| IdentifierData.QueryFirstMatches | front-end/src/dummy/identifierData.js:75-82 | with a query the search returns the first twenty rows whose fab, lot, group key, recipe or parameter contains it ignoring case, in dataset order, and every match while there are at most twenty |
| IdentifierData.FilterSorted | front-end/src/dummy/identifierData.js:76-82 | filtering keeps a sorted list sorted |
| IdentifierData.SearchNewestFirst | front-end/src/dummy/identifierData.js:67-83 | every search result is newest first |
| LoadingProgress.Round | front-end/src/composables/useLoadingState.js:25-32 | `Math.round` gives the integer within half of its argument, halves rounded up |
| LoadingProgress.RoundMonotone | front-end/src/composables/useLoadingState.js:25-32 | rounding is monotone |
| LoadingProgress.PercentBounds | front-end/src/composables/useLoadingState.js:25-32 | a rounded share of at most the whole is a percentage, 100 for the whole, 0 for nothing |
| LoadingProgress.ProgressRange | front-end/src/composables/useLoadingState.js:23-26 | progress is 0 with no total, and otherwise runs from 0 for nothing loaded to 100 for everything, never leaving that range |
| LoadingProgress.ProgressMonotone | front-end/src/composables/useLoadingState.js:23-57 | loading one more item never lowers the progress |
| LoadingProgress.SuccessRateRange | front-end/src/composables/useLoadingState.js:29-33 | while every error belongs to a processed item the success rate is a percentage: 100 with no error or no item, 0 when every item failed |
| LoadingProgress.SuccessRateCanBeNegative | front-end/src/composables/useLoadingState.js:29-72 | errors added without an item push the rate out of range: more errors than items give at most 0, twice as many exactly -100, twice as many or more at most -100 |
| LoadingProgress.LoadingState.constructor | front-end/src/composables/useLoadingState.js:9-20 | the state starts idle, its total the one given or else 0 |
| LoadingProgress.LoadingState.StartLoading | front-end/src/composables/useLoadingState.js:40-49 | loading starts from zero with the given total, the message defaulting to `Loading...`, no error and a fresh controller, so progress is 0 and the rate 100 |
| LoadingProgress.LoadingState.UpdateProgress | front-end/src/composables/useLoadingState.js:56-64 | one more item, the message `Loading item n of m`, an error exactly when it failed; errors stay counted and progress does not fall |
| LoadingProgress.LoadingState.AddError | front-end/src/composables/useLoadingState.js:70-72 | one more error and nothing else changes |
| LoadingProgress.LoadingState.CancelLoading | front-end/src/composables/useLoadingState.js:77-82 | cancelling is marked and an existing controller is aborted |
| LoadingProgress.LoadingState.CompleteLoading | front-end/src/composables/useLoadingState.js:88-98 | the message defaults to `Complete`, the item is cleared, and the close is scheduled exactly when nothing failed |
| LoadingProgress.LoadingState.AutoClose | front-end/src/composables/useLoadingState.js:94-96 | the scheduled close stops the loading and nothing else |
| LoadingProgress.LoadingState.ResetLoading | front-end/src/composables/useLoadingState.js:103-112 | every field returns to its idle value, so progress is 0 and the rate 100 |
| LoadingProgress.LoadingState.IsCancelled | front-end/src/composables/useLoadingState.js:118-120 | true exactly when a controller exists and was aborted |
| SearchApi.FindGroup | front-end/src/dummy/searchApi.js:13 | no position exactly when no group has the key; a position found holds a group with that key |
| SearchApi.KeyHasMembers | front-end/src/dummy/searchApi.js:12-44 | a key some row carries has rows in its group |
| SearchApi.NoMembers | front-end/src/dummy/searchApi.js:12-44 | a key no row carries has none |
| SearchApi.Grouping | front-end/src/dummy/searchApi.js:12-44 | there are as many groups as distinct group keys |
| SearchApi.GroupResults | front-end/src/dummy/searchApi.js:12-44 | the reduce loop builds the reference grouping: one group per distinct key in order of first appearance |
| SearchApi.GroupingKeys | front-end/src/dummy/searchApi.js:13-31 | the `j`-th group carries the `j`-th distinct key |
| SearchApi.GroupingStep | front-end/src/dummy/searchApi.js:13-43 | one more row turns the grouping of the earlier rows into the grouping of all of them, exactly as one step of the reduce does |
| SearchApi.ReduceIsGrouping | front-end/src/dummy/searchApi.js:12-44 | the reduce over all rows is the reference grouping |
| SearchApi.PointCountSort | front-end/src/dummy/searchApi.js:48 | sorting the groups keeps the number of points |
| SearchApi.PointsPartitionRows | front-end/src/dummy/searchApi.js:15-40 | the groups hold exactly as many points as there were rows |
| SearchApi.OneGroupPerKey | front-end/src/dummy/searchApi.js:13-26 | a group has a key exactly when some row has it, and no two groups share a key |
| SearchApi.LatestIsMax | front-end/src/dummy/searchApi.js:22-24 | the kept time is at least every row's time and is one row's time |
| SearchApi.GroupMembers | front-end/src/dummy/searchApi.js:15-40 | a group's points are its rows' points in input order, and its time is the latest of their times |
| SearchApi.SearchMeasurementsAsync | front-end/src/dummy/searchApi.js:7-51 | the reply succeeds, echoes the query, carries the grouped search results sorted newest first, and a total equal to their number |
| SearchApi.ReplyOrdered | front-end/src/dummy/searchApi.js:48 | the reply's groups are a permutation of the grouping, newest first |
| SearchApi.ReplyPoints | front-end/src/dummy/searchApi.js:10-48 | the reply's groups hold as many points as the search returned rows |
| SearchApi.ReplyKeys | front-end/src/dummy/searchApi.js:10-48 | the reply has a group for a key exactly when some result row has that key |
| SearchApi.ReplyStable | front-end/src/dummy/searchApi.js:48 | groups with the same time keep their order of first appearance |

## Left out

- File system, pickles, MongoDB and HTTP: directory listings, existence checks, pickle and JSON payloads, MongoDB results and request arguments are inputs; `jsonify`, `send_file`, `unquote` and URL encoding are not modelled.
- Flask blueprints and status plumbing: only the decision each handler makes is modelled; `afm_bp` and `image_bp` are not registered, and the four-argument path-builder calls they make end in the 500 response of the `TypeError`, whose message text is not modelled.
- The `site_info` site-suffix probe: it does not exist in the code; only the three-parameter builders of `api/utils/file_parser.py` are modelled.
- `float()` coercion of numeric columns: values pass through as decoded; only the `None` to `0` replacement of `api/routes.py` is modelled. A non-numeric value makes `float()` raise and the handler answer 500 (`api/routes.py:165`, `api/routes.py:269-273`), whereas the model passes it through and succeeds.
- Python's `lower` and `isdigit` and JavaScript's `toLowerCase` are modelled on ASCII: only `A`-`Z` are lower-cased and only `0`-`9` are digits, so Unicode case mapping and Unicode digits are not modelled. The white space that `strip`, `split` and `trim` remove is the full Unicode set each language defines (`IsPySpace`, `IsJsSpace`).
- pandas and numpy: the `to_dict` branches, `convert_for_mongodb` and `json_util.dumps` sizing; the document size is an input.
- MongoDB client internals: the connection and its singleton, index creation, `bulk_write`, aggregation pipelines, and the retrieval, search, key lookup, date-range, recipe-statistics, delete, collection-statistics and close calls that only forward to the server; the per-batch write outcome is an input.
- `api/utils/mongo_sync.py`, the schedulers and the loggers: background threads and logging are outside the model.
- Clocks: `datetime.now()`, `Date.now()`, `viewedAt`, `addedAt` and `createdAt` are parameters; ISO timestamps are compared as the integers (milliseconds) or `YYYY-MM-DD` strings they stand for, so JavaScript `Date` parsing, including invalid dates and `NaN`, is not modelled.
- Timers: the `setTimeout` delays of `searchMeasurementsAsync`, the search debounce and the loading auto-close are not modelled as time; the auto-close is the separate `LoadingProgress.LoadingState.AutoClose` method.
- `AbortController`: modelled only as whether a controller exists and whether it was aborted.
- Randomness: `random.sample`, `Math.random` and the dummy generators (`AFMDataService._generate_dummy_data`, the row generator of `identifierData.js`, `summaryData.js`, `profileData.js`, `generate_dummy_data.py`, `create_dummy_files.py`, `api/data_service.py`) are inputs or not modelled; the model takes the rows they produce as given.
- PySortedMeaning: values that are all lists or all tuples are treated as making `sorted` raise; Python compares sequences element by element and would sort them. Floats are exact reals, so a `NaN` value is not modelled.
- AvailableFromSites: the distinct sites are distinct model values, whereas a Python set keeps one of `1`, `1.0` and `True`; summaries that mix such equal numbers of different types list more points here than the source does.
- ArrayToCsv: a first row that is an array or a string is read as having no keys and every cell of such a row as missing; JavaScript gives it the index keys `"0"`, `"1"`, … and reads its elements (or characters) under them, so for such data the model's header line and cells are empty where the source's are not.
- TransformedKeeps: reply data that is an array or a string is read as having no properties; JavaScript's spread copies its index keys, so for such data the transformed object here lacks the indexed properties the source keeps.
- Dictionaries and objects are ordered lists of `(key, value)` entries rather than hash maps; the first entry with a key wins, and the model does not rule out a repeated key, which a Python dict or a JavaScript object cannot hold. Only string keys are modelled.
- JavaScript places integer-like keys (`"0"`, `"12"`) first, in ascending order, in `Object.keys` and in spread copies; the model keeps the insertion order for every key.
- JavaScript's `in` and property lookup also find properties inherited through the prototype chain (`"toString" in {}` is true); the model looks only at the object's own keys. So `KeyDisplayName` shows the key `constructor` as itself, where `displayNames[keyName] || keyName` (`front-end/src/composables/useKeyOrdering.js:138`) shows the `Object` function.
- `store_measurements`: the `pop('pickle_data')` that removes the pickle from the caller's measurement, the `validate_data=False` branch that stores the measurement as given, the `_updated_at` and `_version` stamps and the `tool_name` and `total_processed` fields of the reply are not modelled; each measurement's preparation outcome is an input and the reply holds the four counters.
- SampleFiles: the `drawn` sample is taken as given; the model does not require it to hold `size` distinct elements of the list, which `random.sample` promises, so nothing is proved about where a sample of a longer list comes from.
- `api/image_routes.py` joins directories and names with the `/` operator of `pathlib.Path`; the model concatenates strings with `/`, so an absolute image name (which replaces the directory before it), `..` components and the collapsing of repeated separators are not modelled.
- `AFMDataService._load_from_parquet`: the parquet read is an input.
- Floating point: percentages, grid positions and measurement values are exact reals and integers; `Math.sqrt` in the wafer grid is the exact integer square root rounded up, and `toFixed` formatting in `formatProfileData` is not modelled.
- The pixel and terrain maths of `generate_profile_tiff.py` (`create_simple_ppm_image` and the Z values) are not modelled; the BMP layout and the point counts are.
- Front-end network calls: `api.get` and the axios wrappers are not modelled, so `getAfmFiles`, `getAfmFileDetail` and `fetchProfileData` are not modelled beyond the query string that `getProfileData` builds.
- `exportUtils.js`: `downloadCSV` (a DOM download), `formatProfileData` (floating-point formatting), `createCombinedDataset` (a wrapper that only calls the two modelled formatters) and `generateFilename` (a clock) are not modelled.
- Vue reactivity, watchers, vue-query, the router, localStorage persistence, `usePointSelection.js`, `useToolSelection.js`, `useDataDownload.js` and `useRealtimeSearch.js` are not modelled; refs are class fields and state is a value, so sharing of the same object between two refs is not modelled.
- `dataStore.setSearchQuery`, which `useSearch.js` calls, is not defined by the store; the model does not call it.
- `useLoadingState.js` ends with a stray `</template>` line that makes the module unparseable; the model follows the logic above it as written.
- `useSearch.js:2` and `useResultPageQueries.js:3` import `{ apiService, filterMeasurementsLocally }` from `@/services/api`, whose only export is `export default api` (`front-end/src/services/api.js:24`), so neither module links; the model follows their logic as if the import named `@/services`, whose `index.js` exports both.
- RecipeStatistics: counts `1`, `1.0` and `True` as three recipes with three rows, whereas the Python dict merges them into one key (the one inserted first) with one combined count and date list.
- RecipeStatisticsMeaning: the rows are stated for recipes compared as values, so the merging of equal numbers (`1`, `1.0`, `True`) by the Python dict is not captured.
- GetRecipeStatistics: the local fallback shares the model of `RecipeStatistics`, so it too keeps `1`, `1.0` and `True` apart.
- LoadAfmFileList: a cached pickle without `measurements` gives `[]` in the source, and one whose `metadata` is not a dict raises at `.get` and falls back to the live list (`api/utils/file_parser.py:127-143`); the model's cache always holds both parts as written by `ParseAndCache`.
- Console logging and the log text of every handler are not modelled.
- `log_user_activity` and `get_current_user` read the request and its cookies; they are not modelled, and `get_user_activities` takes the log lines and their decoding as inputs.
- `searchMeasurements` in `front-end/src/dummy/searchApi.js` only forwards to `searchMeasurementHistory`, which `IdentifierData.SearchMeasurementHistory` models.
- JavaScript `undefined` is written as `Null` where the front-end copies a missing field into a record.
- Tooling and entry scripts (`index.py`, `app.py`, `run.py`, `regenerate_cache.py`, `fix_mapc01_cache.py`, the tutorials and the build configuration) are not modelled.
