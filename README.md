# PC build assistant: parsing, extraction and selection logic in Dafny

This project models the deterministic, text-processing and record-selection
core of a PC-building assistant: the scrapers that turn PCPartPicker product
pages into records, the pipeline that turns video-search hits into numbered
assembly steps, the filters and lookups served over those steps, the video
metadata classifiers, the parts API's memory compatibility check, the loader
that copies scraped JSON into database rows, and the script that prepares an
image dataset for training. Every module states what its operations compute
and proves the properties the code promises about them.

Modules, one file each:

- `Wrappers` (`wrappers.dfy`): `Option` and `Result`.
- `Text` (`text.dfy`): strings as Python sees them. It covers ASCII `lower`/`upper`/`capitalize`, `strip` with Python's whitespace set, `split`/`join` on one separator, substring search, and decimal rendering of integers. `int()` truncation of a float is `Trunc`.
- `Sequences` (`sequences.dfy`): order-preserving `Filter`, `Map`, subsequences, first index.
- `Sorting` (`sorting.dfy`): `list.sort` with a key, as a stable insertion sort. It is proved sorted, a permutation of its input, and stable.
- `Keywords` (`keywords.dfy`): the "first keyword group that occurs in the text wins, else a default" classifier shared by several files.
- `Schemas` (`schemas.dfy`): the enums and records of the video pipeline.
- `PartTables` (`part_tables.dfy`): the seven markdown table parsers and the cell extractors.
- `StepExtractor` (`step_extractor.dfy`): search hits to assembly steps, then sorting and numbering.
- `StepFilters` (`step_filters.dfy`): the step filters.
- `VideoMetadataInference` (`video_metadata.dfy`): YouTube id extraction, the video type, skill and platform classifiers, and the content validator.
- `ClipApi` (`clip_api.dfy`): the clip service's step lookup, clip file name, and endpoint answers.
- `Compatibility` (`compatibility.dfy`): the memory type check.
- `JsonToSqlite` (`json_to_sqlite.dfy`): the rules for skipping a file and for projecting a product onto a row.
- `Dataset` (`dataset.dfy`): the class list, label lookup, image listing, train/val split and YAML text.

Where the source loops and mutates, the model is a method with a loop. Most such methods are proved equal to a specification function, and the properties are lemmas about that function. `check_compatibility` and its two query loops are proved against predicates and set membership instead, because they iterate Python sets. The looping operations are:

- the table parsers;
- `_extract_errors`;
- the step collection, sorting and numbering;
- `check_compatibility`;
- the JSON loader, which is a `Session` class whose `added` list the methods append to;
- `read_classes`, `write_yaml`, and the split loop.

The following inputs are parameters of the model:

- the search client, a function from query, video id and page limit to hits;
- the processed-video file loader, a function from file name to contents;
- the database, two sequences of rows;
- the filesystem, the set of label names that exist plus a folder listing.

Each fixed regular expression is a hand-written matcher. It is tried at every position, leftmost first, as `re.search` does.

## Model

| member | source | states |
|---|---|---|
| PartTables.ExtractUrl | scraper/pcpartpicker/scraper/scrape_all_categories.py:14-15 | the URL is group 1 of the leftmost match and "" exactly when the pattern matches nowhere; a non-empty URL starts with `https://pcpartpicker.com/product/`, has more after it, holds no `)`, and is the target of a `](…)` link that only whitespace follows |
| PartTables.UrlOfTrailingLink | scraper/pcpartpicker/scraper/scrape_all_categories.py:14-15 | a cell ending in `](https://pcpartpicker.com/product/ID)` plus whitespace yields that URL, provided every earlier `]` is closed by a `)` before the link |
| PartTables.ExtractName | scraper/pcpartpicker/scraper/scrape_all_categories.py:17-24 | the name is the stripped group of the leftmost `\<br>\<br>NAME\<br>\<br>(digits)` match; when that pattern matches nowhere, the leftmost image alt text; when neither matches, ""; a non-empty name is text of the cell |
| PartTables.NameOfBrSegment | scraper/pcpartpicker/scraper/scrape_all_categories.py:18-20 | a cell `A\<br>\<br>N\<br>\<br>(D)B`, where A and N hold no backslash and D is digits, yields the stripped N |
| PartTables.NameOfAltText | scraper/pcpartpicker/scraper/scrape_all_categories.py:22-24 | with no backslash in the cell (so no `\<br>` segment), the name is the first image's alt text |
| PartTables.NameEmptyWithoutPatterns | scraper/pcpartpicker/scraper/scrape_all_categories.py:18-24 | a cell with neither a `\<br>` segment nor an image yields the empty name |
| PartTables.ExtractRating | scraper/pcpartpicker/scraper/scrape_all_categories.py:27-28 | the rating is the digits of the leftmost `(digits)` and "" exactly when there is none; a non-empty rating is all digits and appears in the cell as `(rating)` |
| PartTables.ExtractPrice | scraper/pcpartpicker/scraper/scrape_all_categories.py:67-68 | the price is the leftmost `$` amount and "" exactly when there is none; a non-empty price is `$` followed by digits, commas and dots, and is text of the cell |
| PartTables.ExtractProductNameAndUrl | scraper/pcpartpicker/scraper/scrape_all_categories.py:11-30 | the name, URL and rating of a name cell, each as its extractor defines it |
| PartTables.CleanCellValue | scraper/pcpartpicker/scraper/scrape_all_categories.py:32-38 | the result is empty or has no whitespace at either end |
| PartTables.CleanCellValueLastLine | scraper/pcpartpicker/scraper/scrape_all_categories.py:34 | only the text after the last newline matters |
| PartTables.DropHeadingLineDead | scraper/pcpartpicker/scraper/scrape_all_categories.py:35 | the `^#+ …\n` rewrite never changes the value, since no newline is left in it |
| PartTables.RemoveBrIdentity | scraper/pcpartpicker/scraper/scrape_all_categories.py:37 | a value without `<br>` passes the token removal unchanged |
| PartTables.RemoveBrSinglePass | scraper/pcpartpicker/scraper/scrape_all_categories.py:37 | the removal is one pass: `<<br>br>` becomes `<br>` |
| PartTables.CleanCellValueNoBr | scraper/pcpartpicker/scraper/scrape_all_categories.py:34-38 | when every `<` of the stripped last line opens a `<br>`, the cleaned value holds no `<` at all, hence no `<br>` or `\<br>` |
| PartTables.Config | scraper/pcpartpicker/scraper/scrape_all_categories.py:300-326 | each category's header test, minimum part count (11, 10 or 9), price column and attribute columns; every attribute column and the price column exist in a row long enough to be read |
| PartTables.RowProduct | scraper/pcpartpicker/scraper/scrape_all_categories.py:59-84 | a row gives a product iff it has at least the minimum number of parts, a non-empty name and a non-empty price; the product has a name, a `$` price and one value per attribute key; its name, URL and rating are those extracted from cell 2, its price the one extracted from the price column, and attribute k is its key with the cleaned cell 3+k |
| PartTables.RowAttributes | scraper/pcpartpicker/scraper/scrape_all_categories.py:73-78 | attribute k is its key paired with the cleaned cell at column 3+k |
| PartTables.LineProducts | scraper/pcpartpicker/scraper/scrape_all_categories.py:47-84 | a line inside the table gives at most one product, a valid one, and a header line never gives one |
| PartTables.LineProductsRows | scraper/pcpartpicker/scraper/scrape_all_categories.py:51-84 | a separator line (a bar, a space and three dashes) gives nothing; any other non-header line starting with a bar gives the row's product when there is one, else nothing |
| PartTables.ProductsValid | scraper/pcpartpicker/scraper/scrape_all_categories.py:83-84 | every product taken from a run of table lines is valid |
| PartTables.FirstHeader | scraper/pcpartpicker/scraper/scrape_all_categories.py:47-49 | the index of the first header line; no earlier line is a header; None iff no line is |
| PartTables.StopIndexIsFirst | scraper/pcpartpicker/scraper/scrape_all_categories.py:51-54 | the table ends at the first line that is not a header and whose stripped text does not start with a bar and comes after an emitted product; earlier such lines are skipped |
| PartTables.RowsAfterStopIgnored | scraper/pcpartpicker/scraper/scrape_all_categories.py:51-53 | once a product has been emitted, the first stop line ends the table |
| PartTables.TableProducts | scraper/pcpartpicker/scraper/scrape_all_categories.py:40-91 | the products of a page, stated without the loop: after the first header line, up to the line that ends the table; every product is valid |
| PartTables.ScanIsTableProducts | scraper/pcpartpicker/scraper/scrape_all_categories.py:46-91 | the loop with its `table_started` flag computes exactly TableProducts |
| PartTables.ParseTable | scraper/pcpartpicker/scraper/scrape_all_categories.py:40-91 | the shared parser loop returns exactly TableProducts for the category's configuration |
| PartTables.ParseCpuTable | scraper/pcpartpicker/scraper/scrape_all_categories.py:40-91 | the CPU parser returns TableProducts of the CPU configuration |
| PartTables.ParseMotherboardTable | scraper/pcpartpicker/scraper/scrape_all_categories.py:93-142 | the motherboard parser returns TableProducts of its configuration (10 parts, price in column 9) |
| PartTables.ParseStorageTable | scraper/pcpartpicker/scraper/scrape_all_categories.py:144-194 | the storage parser returns TableProducts of its configuration |
| PartTables.ParseVideoCardTable | scraper/pcpartpicker/scraper/scrape_all_categories.py:196-246 | the video card parser returns TableProducts of its configuration |
| PartTables.ParseCaseTable | scraper/pcpartpicker/scraper/scrape_all_categories.py:248-298 | the case parser returns TableProducts of its configuration |
| PartTables.ParsePowerSupplyTable | scraper/pcpartpicker/scraper/scrape_all_categories.py:300-349 | the power supply parser returns TableProducts of its configuration, whose header line needs both the Name/Type column titles and `Efficiency Rating` |
| PartTables.ParseCpuCoolerTable | scraper/pcpartpicker/scraper/scrape_all_categories.py:351-399 | the cooler parser returns TableProducts of its configuration (9 parts, price in column 8) |
| PartTables.PreambleLinesIgnored | scraper/pcpartpicker/scraper/scrape_all_categories.py:46-54 | lines before the first header contribute nothing |
| PartTables.PreambleIgnored | scraper/pcpartpicker/scraper/scrape_all_categories.py:46-54 | prepending header-free text to a page leaves its products unchanged |
| PartTables.CpuHeaderAlternativeRedundant | scraper/pcpartpicker/scraper/scrape_all_categories.py:47 | a line holding the second CPU header text (with an empty first column) also holds the first, so the second test adds nothing |
| Keywords.Classify | scraper/pcvideoscrapper/step_extractor.py:225-244 | the label of the first group with a word in the text; the default when no group has one; nothing else |
| Keywords.FirstMatch | scraper/pcvideoscrapper/step_extractor.py:227-242 | the index of the first group, from a start index, that has a word in the text; None iff there is none |
| StepExtractor.Confidence | scraper/pcvideoscrapper/step_extractor.py:164-169 | explicitly shown iff the label is "high" or score > 0.8; verbally explained iff not that and the label is "medium" or score > 0.6; inferred otherwise |
| StepExtractor.ConfidenceMonotone | scraper/pcvideoscrapper/step_extractor.py:164-169 | with the same label, a higher score never gives a lower tier |
| StepExtractor.DetectComponent | scraper/pcvideoscrapper/step_extractor.py:223-244 | the component of the first keyword group (CPU, RAM, GPU, cooler, PSU, storage, motherboard, cables, in that order) found in the lowercased text, else Motherboard |
| StepExtractor.DetectAction | scraper/pcvideoscrapper/step_extractor.py:247-264 | the action of the first keyword group found in the lowercased text, else Insert |
| StepExtractor.DetectIgnoresCase | scraper/pcvideoscrapper/step_extractor.py:225-249 | lowercasing the text first changes neither detection |
| StepExtractor.CpuWordWins | scraper/pcvideoscrapper/step_extractor.py:227-228 | any CPU keyword makes the component CPU, whatever else occurs |
| StepExtractor.InsertWordWins | scraper/pcvideoscrapper/step_extractor.py:251-252 | any insert keyword makes the action Insert |
| StepExtractor.ExtractErrors | scraper/pcvideoscrapper/step_extractor.py:267-288 | the loop returns the messages whose triggers occur in the lowercased text, in table order |
| StepExtractor.FiredMembership | scraper/pcvideoscrapper/step_extractor.py:284-286 | a message is reported iff one of its table entries has a trigger that occurs in the text |
| StepExtractor.FiredInOrder | scraper/pcvideoscrapper/step_extractor.py:284-286 | the reported messages are a subsequence of the table's messages |
| StepExtractor.ErrorsReportedOnce | scraper/pcvideoscrapper/step_extractor.py:272-288 | no message is reported twice |
| StepExtractor.Description | scraper/pcvideoscrapper/step_extractor.py:188-190 | at most 500 characters: the space-joined conversation values (or the default text when there are none) when they fit, else their first 500 characters |
| StepExtractor.StepOf | scraper/pcvideoscrapper/step_extractor.py:155-217 | the description is Description of the conversation values; the visual cues are the first min(5, n) of the n visual values; the query's component and action when given, else detected from the description; the errors are the patterns firing on the lowercased description; platform and form factor from the metadata or Unknown; the times default to 0; the metadata's video id; no step order yet |
| StepExtractor.AppendValues | scraper/pcvideoscrapper/step_extractor.py:175-186 | the loop appends the `value` of every dict entry, in order |
| StepExtractor.ResultToAssemblyStep | scraper/pcvideoscrapper/step_extractor.py:135-220 | the method builds exactly StepOf |
| StepExtractor.QueriesUsed | scraper/pcvideoscrapper/step_extractor.py:100 | the custom queries when given and non-empty, otherwise the eleven defaults |
| StepExtractor.AppendQuerySteps | scraper/pcvideoscrapper/step_extractor.py:114-124 | the loop appends the step of every hit of one query, in hit order |
| StepExtractor.CollectSteps | scraper/pcvideoscrapper/step_extractor.py:104-124 | the loop collects one step per hit, query by query, in client order |
| StepExtractor.NumberSteps | scraper/pcvideoscrapper/step_extractor.py:130-131 | step i gets order i+1 and is otherwise unchanged |
| StepExtractor.NumberedSortedSteps | scraper/pcvideoscrapper/step_extractor.py:126-131 | after sorting and numbering: same steps (as a multiset, ignoring order numbers), orders exactly 1..n, starts non-decreasing, steps with equal starts in collection order |
| StepExtractor.ExtractStepsFromVideo | scraper/pcvideoscrapper/step_extractor.py:83-133 | the result is a permutation of all collected steps, numbered 1..n, sorted by start, and stable for equal starts |
| Sorting.SortBySorted | scraper/pcvideoscrapper/step_extractor.py:127 | the sort's output is sorted by the key |
| Sorting.SortByPermutes | scraper/pcvideoscrapper/step_extractor.py:127 | the sort's output is a permutation of its input |
| Sorting.SortByStable | scraper/pcvideoscrapper/step_extractor.py:127 | elements with equal keys keep their relative order |
| StepFilters.FilterSteps | scraper/pcvideoscrapper/scraper/filter_results.py:17-56 | the result is never longer than the input |
| StepFilters.FilterStepsIsAccepts | scraper/pcvideoscrapper/scraper/filter_results.py:39-56 | the five filter stages in turn equal one filter that keeps the steps meeting every given criterion |
| StepFilters.FilterStepsSubseq | scraper/pcvideoscrapper/scraper/filter_results.py:39-56 | the result is a subsequence of the input, in the original order |
| StepFilters.FilterStepsMembership | scraper/pcvideoscrapper/scraper/filter_results.py:41-54 | a step is in the result iff it is in the input and meets every given criterion |
| StepFilters.FilterStepsNoCriteria | scraper/pcvideoscrapper/scraper/filter_results.py:39-56 | with every criterion None or empty, the input comes back unchanged |
| StepFilters.FilterStepsIdempotent | scraper/pcvideoscrapper/scraper/filter_results.py:41-54 | filtering twice with the same criteria equals filtering once |
| StepFilters.MissingStartDroppedByMax | scraper/pcvideoscrapper/scraper/filter_results.py:50-51 | with a finite max bound, every kept step has a start time |
| StepFilters.BoundsInclusive | scraper/pcvideoscrapper/scraper/filter_results.py:47-51 | a step starting exactly at a bound passes both the min and the max test |
| StepFilters.MissingStartIsZeroForMin | scraper/pcvideoscrapper/scraper/filter_results.py:47-48 | a step without a start passes a min bound iff the bound is ≤ 0 |
| StepFilters.FieldIsIgnoresCase | scraper/pcvideoscrapper/scraper/filter_results.py:42 | text criteria compare case-insensitively |
| StepFilters.FilterBySemanticQuery | scraper/pcvideoscrapper/scraper/filter_results.py:59-94 | the result is never longer than the input |
| StepFilters.SemanticQueryIsFilterSteps | scraper/pcvideoscrapper/scraper/filter_results.py:86-94 | equals filter_steps given only the component and the action |
| StepFilters.SemanticQueryActionOnly | scraper/pcvideoscrapper/scraper/filter_results.py:88-92 | with no component, only the action filter applies |
| VideoMetadataInference.IdAt | scraper/pcvideoscrapper/video_metadata_extractor.py:21 | `([^&\n?#]+)`: the maximal non-empty run of id characters at a position, or None when none starts there |
| VideoMetadataInference.LastV | scraper/pcvideoscrapper/video_metadata_extractor.py:22 | the greedy `.*v=`: the last `v=` followed by an id within the line, or None iff there is none |
| VideoMetadataInference.ExtractVideoId | scraper/pcvideoscrapper/video_metadata_extractor.py:18-30 | the id is the leftmost match of the first pattern; when that pattern matches nowhere, the leftmost match of the second; an id is non-empty, made of id characters, and text of the URL; the error (with the source's message) occurs iff neither pattern matches anywhere |
| VideoMetadataInference.DirectIdExtracted | scraper/pcvideoscrapper/video_metadata_extractor.py:21 | a URL `A + prefix + ID + B`, with no `y` in A and B not continuing the id, yields ID for each of the three prefixes |
| VideoMetadataInference.DirectMatchExtracted | scraper/pcvideoscrapper/video_metadata_extractor.py:25-28 | the leftmost match of the first pattern is the answer |
| VideoMetadataInference.QueryMatchExtracted | scraper/pcvideoscrapper/video_metadata_extractor.py:21-28 | when the first pattern matches nowhere, the leftmost match of the second pattern is the answer |
| VideoMetadataInference.QueryShape | scraper/pcvideoscrapper/video_metadata_extractor.py:22 | an id found by the second pattern is non-empty, made of id characters, and text of the URL |
| VideoMetadataInference.NoYoutubeNoId | scraper/pcvideoscrapper/video_metadata_extractor.py:25-30 | a URL without a `y` raises the error |
| VideoMetadataInference.PrefixesDisjoint | scraper/pcvideoscrapper/video_metadata_extractor.py:21 | at most one of the three alternatives matches at any position |
| VideoMetadataInference.InferVideoType | scraper/pcvideoscrapper/video_metadata_extractor.py:45-72 | the type of the first keyword group found in the combined text, else FullBuild |
| VideoMetadataInference.FullBuildWins | scraper/pcvideoscrapper/video_metadata_extractor.py:52-53 | any full-build keyword gives FullBuild |
| VideoMetadataInference.InferSkillLevel | scraper/pcvideoscrapper/video_metadata_extractor.py:75-85 | beginner keywords win over advanced ones; Intermediate when neither occurs |
| VideoMetadataInference.InferPlatform | scraper/pcvideoscrapper/video_metadata_extractor.py:88-104 | the platform of the first group in the order AM5, AM4, LGA1700, LGA1200; None iff no keyword occurs |
| VideoMetadataInference.Am5Wins | scraper/pcvideoscrapper/video_metadata_extractor.py:92-93 | any AM5 keyword gives AM5 |
| VideoMetadataInference.MissingDescriptionIsEmpty | scraper/pcvideoscrapper/video_metadata_extractor.py:47-49 | a missing description is treated as the empty one by all three classifiers |
| VideoMetadataInference.InferenceIgnoresCase | scraper/pcvideoscrapper/video_metadata_extractor.py:47-49 | uppercasing title and description changes no classification |
| VideoMetadataInference.ValidateVideoContent | scraper/pcvideoscrapper/video_metadata_extractor.py:144-176 | accepted iff no exclude keyword occurs and some PC keyword does |
| VideoMetadataInference.ExcludeWins | scraper/pcvideoscrapper/video_metadata_extractor.py:161-162 | an exclude keyword rejects the video even when PC keywords occur |
| VideoMetadataInference.ContentTextIsCombined | scraper/pcvideoscrapper/video_metadata_extractor.py:151-153 | the validator reads the same combined text as the classifiers |
| ClipApi.FindComponentStep | scraper/pcvideoscrapper/scraper/api.py:66-74 | the first step whose component matches case-insensitively and whose action is exactly "insert"; if there is none, the first step whose component matches; None iff no step's component matches |
| ClipApi.FindComponentStepIgnoresCase | scraper/pcvideoscrapper/scraper/api.py:69-72 | the lookup does not depend on the case of the requested component |
| ClipApi.FoundStepHasComponent | scraper/pcvideoscrapper/scraper/api.py:68-73 | for a known component, a found step carries a component field |
| ClipApi.ClipStemSplit | scraper/pcvideoscrapper/scraper/api.py:80 | splitting the clip name's stem at `_` gives the id's pieces, then the truncated start and end |
| ClipApi.ClipFilenameInjective | scraper/pcvideoscrapper/scraper/api.py:77-80 | equal clip file names mean equal video ids and equal truncated start and end |
| ClipApi.SameSecondSameClip | scraper/pcvideoscrapper/scraper/api.py:80 | times within the same whole seconds give the same file name |
| ClipApi.LookupComponent | scraper/pcvideoscrapper/scraper/api.py:147-149 | succeeds iff the lowercased component is ram, cpu or gpu; otherwise a 404 "Unknown component: …" |
| ClipApi.VideoClip | scraper/pcvideoscrapper/scraper/api.py:145-173 | an unknown component is a 404 naming it; no step found is a 404; a step without a timestamp is a missing key; otherwise the video id is the mapped file's metadata id and the times are the found step's; the download name is the lowercased component + `_installation.mp4` and the clip name is the clip file name of those times |
| ClipApi.GetVideoInfo | scraper/pcvideoscrapper/scraper/api.py:207-228 | an unknown component is a 404 naming it; a found step without a timestamp is a missing key; otherwise the times are the found step's, or 0 and 0 when none is found; the id, title, channel and URL are the mapped file's metadata; the component is reported uppercased and the clip URL is `/get` + capitalized component + `Video` |
| ClipApi.UnknownComponentIs404 | scraper/pcvideoscrapper/scraper/api.py:147-149 | an unknown component gives the 404 from both endpoints, whatever the data files hold |
| ClipApi.OnlyMappedFileIsRead | scraper/pcvideoscrapper/scraper/api.py:151-153 | both endpoints depend only on the file the map names for the component |
| ClipApi.VideoClipSucceeds | scraper/pcvideoscrapper/scraper/api.py:147-160 | a clip is produced iff the component is known and a matching step with a timestamp is found |
| ClipApi.InfoWithoutStepIsZero | scraper/pcvideoscrapper/scraper/api.py:215-225 | with no matching step, the clip endpoint answers 404 while the info endpoint answers with timestamps 0 and 0 |
| ClipApi.InfoAgreesWithClip | scraper/pcvideoscrapper/scraper/api.py:213-225 | when a clip can be made, the info endpoint reports the same video and times |
| ClipApi.ClipUrlIsEndpoint | scraper/pcvideoscrapper/scraper/api.py:227 | for a known component, the clip URL is one of the three served endpoints |
| ClipApi.EndpointsAreKnown | scraper/pcvideoscrapper/scraper/api.py:188-203 | the three endpoints ask for components the map knows, so none of them answers "Unknown component" |
| Compatibility.FirstById | scraper/pcpartpicker/api/main.py:67-73 | a row the test accepts with the smallest id among those accepted; None iff no row is accepted |
| Compatibility.MemoryType | scraper/pcpartpicker/api/main.py:88 | a type exists iff the speed is non-empty; it is the prefix of the speed of length min(4, length of the speed) |
| Compatibility.MemoryTypeOfSpeed | scraper/pcpartpicker/api/main.py:88 | a speed that starts with a four-character kind ("DDR5" of "DDR5-6000") has that kind as its type |
| Compatibility.QueryMemories | scraper/pcpartpicker/api/main.py:67-75 | the collected rows are exactly the rows the requested memory names resolve to |
| Compatibility.QueryMotherboards | scraper/pcpartpicker/api/main.py:77-85 | the collected rows are exactly the rows the requested motherboard names resolve to |
| Compatibility.CheckCompatibility | scraper/pcpartpicker/api/main.py:54-97 | incompatible iff some resolved memory and motherboard both have types and they differ; the message names such a pair's types; compatible answers carry no message |
| Compatibility.OtherPartsIgnored | scraper/pcpartpicker/api/main.py:58-62 | adding a part that is neither memory nor motherboard changes nothing |
| Compatibility.RepeatedNameIgnored | scraper/pcpartpicker/api/main.py:55-62 | repeating a requested part changes nothing |
| Compatibility.MissingTypeNeverConflicts | scraper/pcpartpicker/api/main.py:90 | a pair with a missing type on either side is never a mismatch |
| Compatibility.NoMotherboardCompatible | scraper/pcpartpicker/api/main.py:87-97 | without a motherboard in the request the build is compatible |
| JsonToSqlite.ParseInt | scraper/pcpartpicker/api/json_to_sqlite.py:70 | `int()` of a string: it succeeds only when the stripped text has a digit |
| JsonToSqlite.ParseIntRoundTrip | scraper/pcpartpicker/api/json_to_sqlite.py:70 | `int(str(n)) == n` for every integer |
| JsonToSqlite.ParseIntNeedsDigit | scraper/pcpartpicker/api/json_to_sqlite.py:69-72 | text with no digit fails to parse |
| JsonToSqlite.IntOrNull | scraper/pcpartpicker/api/json_to_sqlite.py:69-72 | the converted rating is an integer or null |
| JsonToSqlite.RatingIsIntOrNull | scraper/pcpartpicker/api/json_to_sqlite.py:68-72 | a kept rating is an integer or null, and null stays null |
| JsonToSqlite.RatingStrings | scraper/pcpartpicker/api/json_to_sqlite.py:68-72 | a scraped digit-string rating becomes that integer; the empty rating becomes null |
| JsonToSqlite.RatingOfString | scraper/pcpartpicker/api/json_to_sqlite.py:68-72 | a string rating becomes its parsed integer, or null when it does not parse |
| JsonToSqlite.FilteredRowShape | scraper/pcpartpicker/api/json_to_sqlite.py:65-73 | the row's keys are exactly the product's keys that are model fields; values other than rating are copied unchanged |
| JsonToSqlite.FilterProduct | scraper/pcpartpicker/api/json_to_sqlite.py:65-73 | the key loop builds exactly that row |
| JsonToSqlite.SkipRules | scraper/pcpartpicker/api/json_to_sqlite.py:44-55 | a file is skipped iff its category is missing or empty, it has no products, or no model is mapped to its category; the first reason applies exactly in the first two cases |
| JsonToSqlite.InsertedRows | scraper/pcpartpicker/api/json_to_sqlite.py:57-78 | an inserted file goes to its category's table, with one row per product and a count equal to the number of products; each row's keys are fields of the model and keys of its product, with values other than rating unchanged |
| JsonToSqlite.Session.constructor | scraper/pcpartpicker/api/json_to_sqlite.py:37 | a new session has added nothing |
| JsonToSqlite.Session.Add | scraper/pcpartpicker/api/json_to_sqlite.py:77 | `session.add` appends one row to the pending rows |
| JsonToSqlite.InsertProducts | scraper/pcpartpicker/api/json_to_sqlite.py:60-78 | the product loop adds each product's row in order and counts the products |
| JsonToSqlite.ConvertFile | scraper/pcpartpicker/api/json_to_sqlite.py:44-78 | the per-file body gives the outcome Convert describes, and the session gains exactly that outcome's rows |
| JsonToSqlite.LoadAll | scraper/pcpartpicker/api/json_to_sqlite.py:37-81 | one outcome per file, in order; the session holds the rows of all inserted files in file order |
| JsonToSqlite.AddedRowsFitTheirModel | scraper/pcpartpicker/api/json_to_sqlite.py:62-77 | every added row goes to a mapped table and has only that model's fields |
| Dataset.ReadClasses | tests/transform_2.py:21-32 | a missing file is an error; otherwise the stripped non-empty lines in file order, or an error when there are none |
| Dataset.ClassNamesShape | tests/transform_2.py:26-29 | every class name is non-empty, has no whitespace at either end, and holds no line break |
| Dataset.ClassNamesRoundTrip | tests/transform_2.py:25-32 | reading back a file of such names, one per line, gives the names |
| Dataset.StemSuffix | tests/transform_2.py:37-41 | a name is its stem followed by its suffix |
| Dataset.TrailingNumber | tests/transform_2.py:48-50 | with the stem's one final newline set aside, a number exists iff the stem ends in a digit, and it is the maximal run of digits that ends the stem |
| Dataset.FindLabel | tests/transform_2.py:35-59 | the first existing name among the candidates, in the order tried; None iff no candidate exists |
| Dataset.SameStemFirst | tests/transform_2.py:37-39 | a same-stem `.txt` label wins |
| Dataset.FrameRenamedSecond | tests/transform_2.py:43-46 | for `frame_N` without a same-stem label, `label_N.txt` is chosen when it exists |
| Dataset.ZeroPadKeepsValue | tests/transform_2.py:55 | zero padding to any width keeps the number's value |
| Dataset.CollectImagesSpec | tests/transform_2.py:77-82 | exactly the folder's files with an image suffix (any case), sorted by name, each as often as listed; nothing for a missing folder |
| Dataset.WriteYaml | tests/transform_2.py:62-74 | the method builds exactly the YAML text |
| Dataset.YamlLayout | tests/transform_2.py:64-73 | the text is newline-terminated and its lines are `path: NAME`, `train: images/train`, `val: images/val`, a blank line, `names:`, then `  i: name` for each class in index order |
| Dataset.LabelDestMatchesImage | tests/transform_2.py:147 | the copied label is named with the image's stem and `.txt` |
| Dataset.SplitImages | tests/transform_2.py:128-153 | the loop yields exactly the copies, missing names and train/val counts the specification functions give |
| Dataset.CopiesPlacement | tests/transform_2.py:132-148 | each copy is of a labelled image, with that image's label, and goes to val iff its index is below the val count |
| Dataset.LabelledImagesCopied | tests/transform_2.py:132-148 | every labelled image is copied |
| Dataset.EveryImageAccounted | tests/transform_2.py:128-153 | train copies + val copies + missing images = number of images |
| Dataset.ValCopiesCounted | tests/transform_2.py:139-153 | the val counter equals the number of copies made to val |
| Dataset.ValBounded | tests/transform_2.py:139 | at most min(val count, images) go to val, none when the count is negative |
| Dataset.ValFilledWhenLabelled | tests/transform_2.py:139 | when every image has a label, exactly min(val count, images) go to val |
| Dataset.PrepareDataset | tests/transform_2.py:99-155 | the four error cases, in the source's order, and success when none applies; on success the class names, the YAML text, the copies, the val and train counters and the missing list of the split loop over the collected images, and every image accounted |
| Dataset.ImageNames | tests/transform_2.py:133-135 | the names of the listed images, in order |

## Left out

- The scrapers' network side is not modelled: `scrape_category`, `scrape_all_categories` and the crawler client. Neither is writing JSON files, or the `debug` printing.
- The `try`/`except` around each parser row and around the step construction is left out: in the typed model no statement inside it can fail.
- The video search client, `download_clip` (yt-dlp, ffmpeg, the clip cache), `FileResponse` and reading JSON files are not modelled. They are parameters or are not reached by the modelled logic. A step without its `timestamp` key gives `MissingKey`, where the source raises a server error.
- The SQL query of `check_compatibility` is modelled as "first row by ascending id whose name contains the query, ignoring case" over a sequence of rows. SQL `LIKE` wildcards (`%`, `_`) inside a query name are not modelled.
- Compatibility.CheckCompatibility: the message names some mismatching pair, not the first one found, because the source iterates Python sets, whose order is unspecified; the methods pick elements with `:|` for the same reason.
- Case folding is ASCII (`Text.Lower`/`Upper`), while Python lowercases all of Unicode.
- PartTables.MatchNameAt: `\d` is read as an ASCII digit; Python's `\d` on a str pattern also matches the other Unicode decimal digits.
- PartTables.MatchRatingAt: `\d` is read as an ASCII digit, as for MatchNameAt.
- PartTables.MatchPriceAt: `\d` is read as an ASCII digit, as for MatchNameAt.
- Dataset.TrailingNumber: `\d` is read as an ASCII digit, as for MatchNameAt.
- `int()` of a string is modelled for optional whitespace, a sign and ASCII digits. Underscores between digits and non-ASCII digits are not modelled. JSON numbers are finite reals, so the `OverflowError` that `int()` raises on an infinite float is not modelled. The category is taken to be a string.
- `session.commit()`, the database file handling and the console messages of the loader are left out. The session is the list of rows it has been given.
- Dataset.ReadClasses: the lines are the pieces between `str.splitlines()` break characters. These differ from `splitlines()` only by empty pieces, which `read_classes` drops, so the result is the same.
- Paths in `tests/transform_2.py` are names inside one folder. Out of `pathlib` only `stem`, `suffix`, `with_suffix` and `name` are modelled. The copying itself (`shutil.copy2`), `mkdir`, `rmtree` and the printing are left out; a copy records the image, its label, its index and its destination split.
- Dataset.SplitImages: the label lookup is a function parameter, which `PrepareDataset` instantiates with `FindLabel` over the set of existing label names. The `lbl_path.exists()` recheck is implied by that lookup.
- `list.sort` and `sorted` are modelled on sequences as a stable insertion sort, not in place.
- PartTables.CleanCellValueNoBr: the code does not promise that no `<br>` remains, because the removal is a single pass (`RemoveBrSinglePass` shows `<<br>br>` leaving `<br>`). The lemma therefore assumes that every `<` of the last line opens a `<br>` token.
- StepFilters.MissingStartDroppedByMax: take a bound of `float('inf')` (kept as `PosInf`). A step with no start compares `inf <= inf`, and that holds, so such a step is kept. The lemma is therefore limited to finite bounds. NaN bounds and NaN start times are left out.
- A keyword test reads title and description joined by one space, so a keyword can match across that boundary; the model does the same.
- `f"Assembly step for {expected_component}"` renders an enum member as `ComponentType.CPU` (`Schemas` `Format`). This follows the str-mixin enum formatting of Python 3.11 and later.
- StepExtractor.StepOf: a `start`, `end`, `score` or `confidence` key present with a JSON `null` is read like a missing key, so it takes the default (0.0 or "low"); in the source `dict.get(key, default)` returns `None` for such a key.
- Floating-point scores and times are reals. `int()` of a time truncates toward zero (`Text.Trunc`).
