# FinMark security platform: loaders and view rules in Dafny

FinMark fills a Django database with four tables:
- network devices, from `network_inventory.csv`;
- security events, from `event_logs.csv`;
- hourly system metrics, which are synthesised;
- user activities.

Its REST views then read those tables back for the dashboard.

This project models the part that decides what ends up in the tables and what the views report:
- **the ETL pipeline class** (`etl_pipeline.py`): extraction with encoding fallbacks, row cleaning, the keyword classifiers, the address validator, event details, metric synthesis, loading and the run summary;
- **the seven stand-alone loader scripts**: `database_setup.py`, `fix_data_loading.py`, `load_real_data.py`, `clean_etl.py`, `simple_load.py`, `clean_load.py` and `load_your_data.py`. Each re-implements the same load with its own keyword tables, limits, fixed events and error handling;
- **the decision rules of the security and metrics views** (`apps/security/views.py`):
  - the date filter;
  - system health;
  - the recent-events query;
  - the last-seen text of the network status;
  - the vulnerability report with its tiers, priorities, sort and summary;
  - the performance overview with its status thresholds.

## Layout

Shared modules:
- `Text`: `strip`, `lower`, substring search, `join`, `str(int)`.
- `Ipv4`: `split`/`join` and `_validate_ip_address`.
- `Domain`: rows, enumerations, read outcomes, clock helpers.
- `Rules`: a first-match keyword table. Every keyword classifier of the loaders and the device-type and status rules of the views is proved equal to a first-match table.
- `Store`: the database as a class whose four tables are sequences updated in place, and Django's `get_or_create`.
- `Lists`: filter-map and pairwise map.
- `Sorting`: a stable descending sort.
- `Loaders`: the loops the scripts share.

Then one module per source file:
- `EtlPipeline` holds the class `FinMarkEtlPipeline`;
- `DatabaseSetup`, `FixDataLoading`, `LoadRealData`, `CleanEtl`, `SimpleLoad`, `CleanLoad` and `LoadYourData` model the scripts;
- `SecurityViews`, `DeviceViews` and `MetricsViews` model the views.

`Comparisons` states where the scripts' classifications agree and where they differ.

Conventions:
- **Outside inputs are parameters.**
  - *Reading a CSV file* is a `ReadOutcome`, one of:
    - a table;
    - file not found;
    - a decode failure;
    - any other failure.
  - *Every random draw* is an element of a parameter sequence, or a function of the loop indices. A `requires` gives the range the source draws from, for every draw that reaches a stored value (`ValidDraws`); the `randint(1, 254)` of a local or external address is `ValidDraws(…, 1, 254)`, and the pipeline's `np.random.randint(1, 254)`, whose upper bound is exclusive, is `ValidDraws(…, 1, 253)`.
  - *The clock* is a parameter `now`, in whole hours.
- **Timestamps.** `SecurityEvent.timestamp` and `UserActivity.timestamp` are `auto_now_add` fields (`apps/security/models.py:18`, `apps/analytics/models.py:9`). So a saved event carries the save time, whatever timestamp the script passed.
- **Device table.** It is a sequence, not a map, because `Device.hostname` is not unique (`apps/security/models.py:6`). `database_setup.py` can therefore create two rows for one hostname. `get_or_create` then fails with `MultipleObjectsReturned`, which the model represents (`Store.GetOrCreate`).

Where the scripts' own descriptions and the code disagree, the model follows the code. Examples:
- The pipeline's event classifier makes a label containing both "checkout" and "wishlist" a non-threat, because the checkout arm comes first. So "a threat exactly for login or wishlist labels" does not hold; `EtlPipeline.EventClassFacts` states the real condition.
- `database_setup.py` writes its sample statuses by hand, and they disagree with its own rule (`DatabaseSetup.SampleStatusDisagrees`).
- The business-hours test in `load_system_metrics` reads the loop offset, not the hour of the timestamp (`DatabaseSetup.BusinessHoursByOffset`).

## Model

| member | source | states |
|---|---|---|
| Ipv4.Split | etl_pipeline.py:402 | `split('.')` gives at least one part and no part contains the separator |
| Ipv4.Octets | etl_pipeline.py:402-403 | a valid address has four octet values, each at most 255 |
| Ipv4.SplitJoin | etl_pipeline.py:402 | splitting a dotted text built from separator-free groups gives back those groups |
| Ipv4.JoinSplit | etl_pipeline.py:402 | joining the groups of a split gives back the original text |
| Ipv4.FormatQuadValid | etl_pipeline.py:398-404 | every address formatted from four octets at most 255 passes the validator and reads back as the same four octets |
| Ipv4.FormatOctets | etl_pipeline.py:398-404 | a valid address without leading zeros or trailing newline is the formatting of its own octets |
| Ipv4.ValidLength | etl_pipeline.py:400 | a valid address has 7 to 16 characters (16 with the newline `$` admits) |
| Ipv4.QuadValidity | etl_pipeline.py:400-403 | four dotted groups are valid exactly when every group is one to three digits of value at most 255 |
| Ipv4.GroupCount | etl_pipeline.py:400 | a dotted text of other than four groups is never valid |
| Ipv4.AcceptedExamples | etl_pipeline.py:398-404 | the inventory's addresses such as 10.0.0.1 are accepted |
| Ipv4.JoinedOctets | etl_pipeline.py:398-404 | four dot-free groups of one to three digits worth at most 255, joined by dots, form a valid address with those values |
| Ipv4.BroadcastAccepted | etl_pipeline.py:403 | 255.255.255.255 is accepted (the bound is inclusive) |
| Ipv4.LeadingZeroAccepted | etl_pipeline.py:400-403 | 010.0.0.1 is accepted: the pattern allows leading zeros |
| Ipv4.TrailingNewlineAccepted | etl_pipeline.py:400-401 | an address followed by one newline is accepted, since `re.match` with `$` matches before a final newline |
| Ipv4.OctetOutOfRangeRejected | etl_pipeline.py:403 | a group above 255 is rejected |
| Ipv4.LongGroupRejected | etl_pipeline.py:400 | a group of four digits is rejected |
| Ipv4.NonDigitsRejected | etl_pipeline.py:400 | groups that are not digits are rejected |
| Ipv4.TooFewGroupsRejected | etl_pipeline.py:400 | an address of three groups is rejected |
| Ipv4.TooManyGroupsRejected | etl_pipeline.py:400 | an address of five groups is rejected |
| Domain.FirstDecoded | etl_pipeline.py:83-92 | the outcome of trying the encodings in turn: a decode failure only when every encoding failed to decode, and always one of the attempts |
| Domain.TryEncodings | etl_pipeline.py:83-92 | the encoding loop returns exactly `FirstDecoded` |
| Domain.FirstDecodedIsFirst | fix_data_loading.py:51-56 | the first attempt that does not fail to decode decides, whatever follows |
| Domain.Weekday | database_setup.py:291 | `weekday()` is below 7 |
| Domain.Clamp | etl_pipeline.py:292-294 | `max(lo, min(hi, x))` lies in `lo..hi`, is `x` inside the range and the nearer bound outside |
| Domain.Trunc | database_setup.py:300 | Python's `int` on a float truncates toward zero, within one unit of the value |
| Rules.FirstMatch | etl_pipeline.py:428-433 | an `if`/`elif` chain of `any(k in s ...)` tests: the first firing rule decides, the fallback when none fires |
| Rules.FirstMatchAt | etl_pipeline.py:428-433 | the first rule that fires decides, whatever rules come after it |
| Rules.FirstMatchNone | etl_pipeline.py:432-433 | when no rule fires the fallback is returned |
| Text.Strip | etl_pipeline.py:170-175 | `strip()` leaves no whitespace at either end, removes only whitespace, and leaves trimmed text unchanged |
| Text.Lower | etl_pipeline.py:408 | `lower()` on ASCII text: the length is kept and each letter A-Z becomes its lowercase letter, every other character is kept |
| Text.NatToString | fix_data_loading.py:230 | `str(n)` is canonical digits whose value is `n` |
| Text.NatToStringOfValue | fix_data_loading.py:230 | `str(int(s)) == s` for canonical digit strings |
| Store.CountHost | apps/security/models.py:6 | the number of rows with a hostname is zero exactly when the hostname is absent |
| Store.UniqueCountsAtMostOne | apps/security/models.py:6 | in a table with unique hostnames each hostname occurs at most once |
| Store.GetOrCreate | fix_data_loading.py:70-79 | `get_or_create` creates exactly when the hostname is absent and appends the new row, fails exactly when two or more rows match, and otherwise leaves the table alone; afterwards the hostname is present |
| Store.GetOrCreateKeepsUnique | fix_data_loading.py:70-79 | on a table with unique hostnames `get_or_create` never fails and keeps them unique |
| Store.LoadAll | etl_pipeline.py:310-342 | per-row `get_or_create` with a handler around each call: the old rows are kept and one row is added per device created |
| Store.LoadAllCovers | etl_pipeline.py:310-342 | after loading, every hostname of the list is in the table |
| Store.LoadAllKeepsUnique | etl_pipeline.py:310-342 | unique hostnames stay unique and no call fails |
| Store.LoadAllPresent | etl_pipeline.py:310-342 | loading devices that are all present creates nothing and changes nothing |
| Store.LoadAllIdempotent | etl_pipeline.py:310-342 | loading the same list twice: the second load creates nothing and changes nothing |
| Store.LoadUntilFailure | load_real_data.py:56-80 | a loop of `get_or_create` with no handler inside: the old rows are kept, the loop halts exactly when some row did not return, and `created <= returned <= rows` |
| Store.LoadUntilFailureHalted | load_real_data.py:56-80 | once the loop stops, later rows change nothing |
| Store.LoadUntilFailureKeepsUnique | load_real_data.py:56-80 | on unique hostnames the loop keeps them unique and can only stop on a missing column |
| Store.LoadUntilFailureCovers | load_real_data.py:56-80 | every row whose call returned has its hostname in the table |
| Store.LoadUntilFailureNoMissing | load_real_data.py:71-80 | the loop stops on a missing column only where a row's entry is one |
| Store.Present | fix_data_loading.py:96-105 | a fixed device list as loop entries, none of them missing a column |
| Store.LoadPresentCompletes | fix_data_loading.py:96-105 | a fixed list loaded on unique hostnames runs to the end, keeps them unique and leaves every listed hostname present |
| Store.Database.constructor | apps/security/models.py:4-20 | the four tables start as given |
| Store.Database.DeleteDevices | database_setup.py:73 | `Device.objects.all().delete()` empties the device table |
| Store.Database.DeleteEvents | database_setup.py:70 | the event table becomes empty |
| Store.Database.DeleteMetrics | database_setup.py:71 | the metric table becomes empty |
| Store.Database.DeleteActivities | database_setup.py:72 | the activity table becomes empty |
| Store.Database.CreateDevice | database_setup.py:126-133 | `create` appends the row with no uniqueness or address check |
| Store.Database.GetOrCreateDevice | fix_data_loading.py:70-79 | the device table and the lookup result are those of `GetOrCreate` |
| Store.Database.CreateEvent | apps/security/models.py:18 | one event appended, stamped with the save time |
| Store.Database.CreateEvents | database_setup.py:273-275 | the drafts appended in order, all stamped with the save time |
| Store.Database.CreateMetric | database_setup.py:302-307 | one metric appended |
| Store.Database.CreateActivity | database_setup.py:361-367 | one activity appended |
| Store.Accepts | apps/security/models.py:13-20 | a model's constructor takes a call exactly when every keyword names one of its fields |
| Store.Database.CreateEventWith | apps/security/models.py:13-20 | an event `create` with a keyword that is not a `SecurityEvent` field raises and stores nothing; otherwise it appends the event |
| Store.Database.CreateEventsWith | fix_data_loading.py:180-189 | a loop of such calls raises exactly when a keyword is unknown and there is something to create; it then stores nothing, and otherwise stores every draft in order |
| Store.Database.CreateMetricWith | apps/analytics/models.py:13-18 | a metric `create` with a keyword that is not a `SystemMetrics` field raises and stores nothing; otherwise it appends the metric |
| Store.Database.CreateMetricsWith | load_real_data.py:211-231 | a loop of such calls raises exactly when a keyword is unknown and there is something to create; it then stores nothing, and otherwise stores every metric in order |
| Store.Saved | apps/security/models.py:18 | a saved event carries the save time |
| Store.SavedAll | apps/security/models.py:18 | saving keeps the number and order of events |
| Store.SavedAllAppend | apps/security/models.py:18 | saving one more draft appends one more row |
| Store.SavedAllConcat | apps/security/models.py:18 | saving two lists is saving their concatenation |
| Lists.FilterMap | apps/security/views.py:319-348 | the kept outputs, in order, each the output of some input |
| Lists.FilterMapIsFilter | apps/security/views.py:319-348 | an output is kept exactly when the function gives one, in input order |
| Lists.MapPairs | etl_pipeline.py:208-261 | one output per row, the row paired with its own draw |
| Sorting.SortDescFacts | apps/security/views.py:351 | `sort(key=risk_score, reverse=True)`: sorted by descending key, a permutation of the input, and stable (equal keys keep their input order) |
| Sorting.SortDescLength | apps/security/views.py:351 | sorting keeps the length |
| Loaders.RoleTypeTable | load_real_data.py:57-65 | the device type is the first of router, server, printer found in the lowercased role, workstation otherwise |
| Loaders.ServerUnlessNamedTable | simple_load.py:57-65 | the type is the first of router, printer found, else server; a workstation is never produced |
| Loaders.RiskStatusTable | load_real_data.py:67-69 | critical exactly on "no antivirus" or "outdated", else active; never warning |
| Loaders.FirstTable | load_real_data.py:94-105 | the first read that yields a table, none exactly when no read does |
| Loaders.FindTable | load_real_data.py:94-105 | the file loop returns exactly `FirstTable` |
| Loaders.CsvRows | load_real_data.py:94-107 | rows come only from a read that yielded them |
| Loaders.SearchEventLogs | fix_data_loading.py:114-127 | the event-log search over both file names and their encodings returns exactly `EventLogSearch` |
| Loaders.CreateDevices | database_setup.py:155-156 | the list is appended to the device table in order |
| Loaders.GetOrCreateEach | load_real_data.py:56-80 | the device table after a row-by-row `get_or_create` loop is `LoadUntilFailure` |
| Loaders.MapRows | load_real_data.py:56-80 | one loop entry per row, in order |
| Loaders.LoadInventory | load_real_data.py:53-85 | a table is loaded by the loop, a failed read loads nothing |
| Loaders.CreateEventRows | load_real_data.py:110-139 | the `k`-th row becomes the `k`-th event with the `k`-th address draw, all appended; the count is the number of rows |
| Loaders.LoginClassFacts | clean_load.py:85-96 | critical, threat and login label coincide; everything else is informational traffic |
| Loaders.Head | load_real_data.py:110 | `head(n)` is a prefix of length `min(n, len)` |
| Loaders.LocalAddressValid | load_real_data.py:135 | every `192.168.1.{randint(1, 254)}` address is valid and reads back as 192.168.1.x |
| Loaders.CsvEventsThenFixed | load_real_data.py:87-190 | the logged events of the first readable table, at most `limit`, then the fixed events, appended in that order |
| Loaders.HourlyMetrics | clean_etl.py:173-182 | 24 metrics, one per hour back from now, each from its draw and inside the drawn ranges |
| Loaders.CriticalRangesAbove | load_real_data.py:216-223 | every metric of a critical device is busier on all three columns than any metric of a device that is not |
| Loaders.PerDeviceMetrics | load_real_data.py:211-232 | 24 metrics per device, device by device, each inside the ranges of its device's status |
| Loaders.AllDeviceMetrics | load_real_data.py:211-231 | the flat list of those metrics has 24 per device |
| Loaders.AllDeviceMetricsAt | load_real_data.py:211-231 | device `i`'s metric for `h` hours ago is the list's entry `24 * i + h`, drawn for that device, hour and status |
| Loaders.MetricsForDevicesWith | load_real_data.py:197-231 | the metric loop with given keyword names: the fallback device on an empty table; it raises exactly when a keyword is not a field, storing no metric, and otherwise stores every device's 24 metrics |
| Loaders.MetricsForDevices | load_real_data.py:197-232 | an empty device table first gets the fallback device; then 24 metrics for every device, within its status's ranges |
| Loaders.DeviceDraws | load_real_data.py:212-223 | the 24 draws of one device |
| Loaders.CreateActivities | load_real_data.py:258-269 | `n` activities appended, the `k`-th with the `k`-th picked kind and address; every kind is one of the list |
| EtlPipeline.DeviceTypeTable | etl_pipeline.py:406-419 | the device type is the first match of router, server, printer, pc/client on the lowercased role, workstation otherwise |
| EtlPipeline.WorkstationIsDefault | etl_pipeline.py:416-419 | the pc/client arm changes nothing: only router, server and printer decide |
| EtlPipeline.DeviceStatusTable | etl_pipeline.py:421-433 | critical on any of four keywords, else warning on any of four more, else active |
| EtlPipeline.EventTable | etl_pipeline.py:435-448 | the event class is the first match of login, checkout, wishlist, profile; informational traffic otherwise |
| EtlPipeline.EventClassFacts | etl_pipeline.py:435-448 | a threat exactly for login labels and for wishlist labels without checkout; critical exactly for login labels; informational exactly when none of the three keywords occurs |
| EtlPipeline.SourceIpFacts | etl_pipeline.py:450-457 | every generated source address is valid, 203.0.113.x exactly for login labels and 192.168.1.x otherwise |
| EtlPipeline.Annotation | etl_pipeline.py:472-476 | at most one annotation piece is added |
| EtlPipeline.DetailFields | etl_pipeline.py:459-478 | the details always have the label piece |
| EtlPipeline.EventDetailsJoinFields | etl_pipeline.py:459-478 | the details built one `+=` at a time are the pieces joined by " \| " |
| EtlPipeline.AnnotateAppends | etl_pipeline.py:472-476 | the last step appends the annotation piece, if any |
| EtlPipeline.HasFieldParts | etl_pipeline.py:459-478 | a tag is among the pieces exactly when one of the parts starts with it |
| EtlPipeline.AnnotationField | etl_pipeline.py:472-476 | the annotation carries a tag exactly when its note starts with it |
| EtlPipeline.DetailFieldsValues | etl_pipeline.py:463-470 | the user piece is present exactly when the user is not "unknown", the product piece when the product is not empty, the amount piece when the amount is positive |
| EtlPipeline.DetailFieldsNotes | etl_pipeline.py:472-476 | the security note is the last piece exactly for login labels, the business note exactly for checkout labels without login |
| EtlPipeline.CleanDevice | etl_pipeline.py:167-197 | a kept device has a valid, trimmed address and trimmed hostname, OS and notes |
| EtlPipeline.CleanInventory | etl_pipeline.py:150-206 | cleaning never adds devices |
| EtlPipeline.CleanInventoryFacts | etl_pipeline.py:150-206 | every cleaned device has a valid address, and no device is lost when every row is valid |
| EtlPipeline.HourMetric | etl_pipeline.py:279-301 | the metric is `hoursAgo` hours back, cpu in 10..95, memory in 20..90, response at least 50; with one-sigma noise, business hours give cpu 45..75 and other hours 15..45 |
| EtlPipeline.Summarize | etl_pipeline.py:549-557 | status success exactly when no error was recorded; the totals add up; at most the first five errors are listed |
| EtlPipeline.FinMarkEtlPipeline.constructor | etl_pipeline.py:57-66 | counters zero and no errors |
| EtlPipeline.FinMarkEtlPipeline.ExtractNetworkInventory | etl_pipeline.py:72-97 | the rows of the first encoding that decodes; otherwise no rows and one recorded error |
| EtlPipeline.FinMarkEtlPipeline.ExtractEventLogs | etl_pipeline.py:99-127 | the first readable file's rows, an escaping exception, or no rows with the "No valid file found" error |
| EtlPipeline.FinMarkEtlPipeline.ExtractMarketingData | etl_pipeline.py:129-146 | a failed read records one error, a successful one none |
| EtlPipeline.FinMarkEtlPipeline.CleanNetworkInventory | etl_pipeline.py:150-206 | the loop returns `CleanInventory` of the rows: invalid rows skipped, nothing recorded |
| EtlPipeline.FinMarkEtlPipeline.CleanEventLogs | etl_pipeline.py:208-261 | the first `min(100, n)` rows, each cleaned with its own address draw |
| EtlPipeline.FinMarkEtlPipeline.GenerateSystemMetrics | etl_pipeline.py:263-306 | 24 metrics, the `h`-th for `h` hours back; the devices are not consulted |
| EtlPipeline.FinMarkEtlPipeline.LoadDevices | etl_pipeline.py:310-342 | the table after per-row `get_or_create`, the count of created devices, one error per failing row |
| EtlPipeline.FinMarkEtlPipeline.LoadDevice | etl_pipeline.py:324-339 | one `get_or_create`: its lookup and the new table, and an error message logged exactly when the lookup raises |
| EtlPipeline.FinMarkEtlPipeline.LoadSecurityEvents | etl_pipeline.py:344-368 | every event appended in order with the save time; the count is their number |
| EtlPipeline.FinMarkEtlPipeline.LoadSystemMetrics | etl_pipeline.py:370-394 | every metric appended in order; the count is their number |
| EtlPipeline.FinMarkEtlPipeline.ExtractPhase | etl_pipeline.py:521-527 | phase 1 yields the inventory rows and the event rows, or the escaping exception; exactly the failures of the three reads are appended to the errors, in order (only the inventory's when the event logs raise) |
| EtlPipeline.FinMarkEtlPipeline.TransformPhase | etl_pipeline.py:529-535 | phase 2 gives the cleaned inventory, at most 100 cleaned events and 24 metrics |
| EtlPipeline.FinMarkEtlPipeline.LoadPhase | etl_pipeline.py:537-543 | phase 3 loads devices, events and metrics and records their counts; exactly one error per failing device lookup is appended |
| EtlPipeline.FinMarkEtlPipeline.ClearAndExtract | etl_pipeline.py:512-527 | events, metrics and activities are emptied and the devices kept; then phase 1 as above: the rows read, the crash exactly when the event logs raise, and otherwise the three reads' failures appended |
| EtlPipeline.FinMarkEtlPipeline.TransformAndLoad | etl_pipeline.py:529-557 | phases 2 and 3 and the summary on emptied tables: the loaded devices, the cleaned events stamped now, the 24 hourly metrics, the counters, the device errors appended, and the summary of the counters and errors |
| EtlPipeline.FinMarkEtlPipeline.RunPipeline | etl_pipeline.py:501-572 | activities are cleared and never refilled; the run crashes exactly when reading the event logs raises, and then the devices are untouched and events and metrics empty; otherwise the devices are the get-or-create load of the cleaned inventory, the events are the first `min(100, n)` cleaned rows stamped with the save time, the metrics are the 24 hourly metrics of `generate_system_metrics`, the counters match them, the errors are the earlier ones, then the extraction failures, then one per failing device lookup, and the status is SUCCESS exactly when there were no earlier errors, all three reads succeeded and no lookup failed |
| EtlPipeline.InventoryErrors | etl_pipeline.py:72-97 | the inventory extraction adds an error exactly when no encoding gave a table |
| EtlPipeline.ExtractErrors | etl_pipeline.py:525-527 | the extractions add no error exactly when the inventory and marketing files were read and an event log was found; the inventory's error comes first, and there are at most three |
| EtlPipeline.CleanedEventsOf | etl_pipeline.py:208-261 | the events a run cleans: one per row of the first `min(100, n)` event rows |
| EtlPipeline.DeviceErrors | etl_pipeline.py:339-341 | one error message per failing row |
| EtlPipeline.DeviceErrorsAppend | etl_pipeline.py:339-341 | one more failure adds its `MultipleObjectsReturned` message |
| DatabaseSetup.StatusTable | database_setup.py:118-124 | critical on any of three keywords, else warning on any of three more, else active |
| DatabaseSetup.ImportDeviceFacts | database_setup.py:100-133 | missing cells take their defaults ("Unknown", "127.0.0.1", workstation), and the stripped address is stored unvalidated |
| DatabaseSetup.Imported | database_setup.py:100-133 | one device per row, in order |
| DatabaseSetup.ImportKeepsDuplicates | database_setup.py:126-133 | two rows naming one device give two rows with the same hostname |
| DatabaseSetup.SampleDevicesFacts | database_setup.py:144-158 | six sample devices with distinct hostnames, three of them critical |
| DatabaseSetup.SampleStatusDisagrees | database_setup.py:148 | WebServer1's sample status is warning while the loader's rule makes its notes critical |
| DatabaseSetup.OutdatedIsCritical | database_setup.py:119-120 | notes starting with "Outdated" are critical |
| DatabaseSetup.LoadNetworkInventory | database_setup.py:94-142 | a table is created row by row with no uniqueness check; a missing file or any failure creates the samples; an empty address is not rejected (see Left out) |
| DatabaseSetup.EventTable | database_setup.py:186-202 | the event class is the first match of login, checkout, wishlist; user activity otherwise |
| DatabaseSetup.EventClassFacts | database_setup.py:186-202 | a threat exactly for login labels and wishlist labels without checkout; critical exactly for login; a transaction exactly for checkout without login |
| DatabaseSetup.DetailFields | database_setup.py:210-217 | the details always have the label piece |
| DatabaseSetup.EventDetailsJoinFields | database_setup.py:210-217 | the details built one `+=` at a time are the pieces joined by " \| " |
| DatabaseSetup.HasFieldParts | database_setup.py:210-217 | a tag is among the pieces exactly when one part starts with it |
| DatabaseSetup.DetailFieldsValues | database_setup.py:211-217 | the label comes first; the user, product and amount pieces are there exactly when those values are |
| DatabaseSetup.SetupEventAddress | database_setup.py:204-208 | every stored address is valid, 203.0.113.x exactly for threats and 192.168.1.x otherwise |
| DatabaseSetup.CriticalEventsFacts | database_setup.py:238-275 | four fixed events, all threats; the malware event comes from PC-Client-02's address and names it |
| DatabaseSetup.LoadSecurityEvents | database_setup.py:160-277 | the first `min(n, 500)` rows of the first readable file, each with its draw, then the four fixed events |
| DatabaseSetup.CreateInBatches | database_setup.py:171-227 | the batches of 100 cover exactly the first `min(n, 500)` rows, in order |
| DatabaseSetup.BatchStep | database_setup.py:172-173 | one more batch appends the next stretch of rows |
| DatabaseSetup.SetupMetric | database_setup.py:287-307 | the timestamp is `daysAgo` days and `hour` hours back; cpu in 10..95, memory in 20..90, response at least 50 |
| DatabaseSetup.TruncMonotone | database_setup.py:300 | `int()` preserves order |
| DatabaseSetup.BusinessHoursNotLower | database_setup.py:290-300 | with the same noise, a business-hours metric is at least as high as an off-hours one on every column |
| DatabaseSetup.BusinessHoursByOffset | database_setup.py:286-291 | the test reads the loop offset: 8 hours before Monday 04:00 is Monday 20:00, yet counts as business hours |
| DatabaseSetup.LoadSystemMetrics | database_setup.py:279-310 | 84 metrics, seven days of every second hour, the `k`-th from the `k`-th draws |
| DatabaseSetup.Sales | database_setup.py:343 | `float(x) if x else 0` is the value when present and 0 otherwise |
| DatabaseSetup.LoadUserActivities | database_setup.py:312-369 | the first 50 marketing rows become activities, or 20 samples when the file is missing; any other failure escapes with no activity written |
| DatabaseSetup.CreateMarketingActivities | database_setup.py:321-346 | one activity per marketing row, in row order, each with its drawn kind and address and the row's sales |
| DatabaseSetup.SetupDatabase | database_setup.py:25-89 | all four tables emptied and refilled in order: the imported (or sample) devices, the logged then the fixed events, the 84 metrics of the week with their draws, and the marketing activities (or 20 samples) with their kinds, addresses and sales; `raised` covers only the marketing loader's escape: it holds exactly when reading the marketing file fails other than by a missing file; `print_summary` is left out |
| DatabaseSetup.LoadDevicesAndEvents | database_setup.py:75-81 | on emptied tables: the imported (or sample) devices, then the first 500 logged events and the fixed ones |
| DatabaseSetup.LoadMetricsAndActivities | database_setup.py:83-89 | on emptied tables: the 84 metrics of the week, the `k`-th from the `k`-th draws, then one activity per marketing row (or 20 samples) with its drawn kind, local address and sales, raising exactly when the marketing file fails other than by being missing |
| FixDataLoading.StatusOf | fix_data_loading.py:76 | the status is never warning |
| FixDataLoading.StatusTable | fix_data_loading.py:76 | one keyword rule ("no antivirus") with active as the fallback; a device critical here is critical under the shared risk rule too |
| FixDataLoading.FixDeviceFacts | fix_data_loading.py:59-79 | a row raises exactly when `Device` or `IP_Address` is missing; otherwise its cells are stored as read, critical exactly on "no antivirus" |
| FixDataLoading.SampleDevicesFacts | fix_data_loading.py:88-94 | five samples with distinct hostnames, only PC-Client-02 critical |
| FixDataLoading.LoadNetworkDevices | fix_data_loading.py:45-106 | a table is loaded until the first exception, a missing file loads the samples, and a read failure or an all-failing decode escapes with nothing loaded |
| FixDataLoading.SamplesLoad | fix_data_loading.py:96-105 | on unique hostnames the samples always load completely |
| FixDataLoading.EventTable | fix_data_loading.py:136-151 | the event class is the first match of login, checkout, wishlist; informational traffic otherwise |
| FixDataLoading.EventClassFacts | fix_data_loading.py:136-151 | no logged event is critical; an event is a threat exactly when it is a warning, exactly for login labels and wishlist labels without checkout |
| FixDataLoading.FixEventAddress | fix_data_loading.py:156 | every logged event comes from a valid 192.168.1.x address, threats included |
| FixDataLoading.SampleEventsFacts | fix_data_loading.py:172-178 | four of the five sample events are threats; the malware event comes from PC-Client-02's address |
| FixDataLoading.LoadSecurityEvents | fix_data_loading.py:108-191 | the first 50 logged rows, then the five samples; a read failure is caught and only the samples are added |
| FixDataLoading.GenerateSystemMetrics | fix_data_loading.py:193-240 | an empty device table gets `default-server`; then 24 metrics per device, within its status's ranges |
| FixDataLoading.MetricIdInjective | fix_data_loading.py:230 | two metric ids are equal only for the same device and hour |
| FixDataLoading.SplitAtSeparator | fix_data_loading.py:230 | `h + "_" + digits` determines `h` and the digits |
| FixDataLoading.LoadAfterDevices | fix_data_loading.py:292-302 | the fallback server when the table is empty; the logged then sample events, stamped now; 24 metrics per device with its draws; 100 activities with their drawn kinds and local addresses |
| FixDataLoading.RunLoading | fix_data_loading.py:281-302 | the corrected run (see Findings): it raises exactly when the inventory cannot be decoded or read, or its get-or-create loop stops, and then the devices are that loop's partial table and nothing else changes; otherwise devices, events, metrics and activities in order: the get-or-create load (with the fallback server when empty), the logged then sample events, 24 metrics per device with its draws, and 100 activities with their drawn kinds and addresses |
| FixDataLoading.KeywordsRejected | fix_data_loading.py:153-237 | neither model's constructor takes this script's keyword names |
| FixDataLoading.LoadSecurityEventsAsWritten | fix_data_loading.py:108-191 | as written: the logged rows' `TypeError` is caught, the fixed events' escapes, and no event is stored |
| FixDataLoading.RunLoadingAsWritten | fix_data_loading.py:281-296 | as written: the devices load as in `RunLoading`, and then the run always raises with events, metrics and activities unchanged |
| LoadRealData.RealDeviceFacts | load_real_data.py:56-80 | a row raises exactly when a key column is missing; its notes are stored unchanged |
| LoadRealData.EventTable | load_real_data.py:113-129 | the event class is the first match of login, checkout, wishlist; informational traffic otherwise |
| LoadRealData.EventClassFacts | load_real_data.py:113-129 | critical exactly for login labels; informational exactly when none of the keywords occurs; a checkout label is a warning but not a threat |
| LoadRealData.RealDetailsParts | load_real_data.py:136 | the details start with the label and end with the user cell |
| LoadRealData.CriticalEventsFacts | load_real_data.py:151-190 | five fixed events, all threats, the first three critical |
| LoadRealData.LoadDevicesAndEvents | load_real_data.py:51-190 | the inventory loaded until the first exception, then at most 100 logged events and the five fixed ones |
| LoadRealData.LoadMetricsAndActivities | load_real_data.py:194-271 | the fallback device when the table is empty, 24 metrics per device with its own draws, hour by hour back from now, within its status's ranges, and 150 activities with their drawn kinds and local addresses, stamped now |
| LoadRealData.Run | load_real_data.py:45-271 | the corrected run (see Findings): events, metrics and activities cleared; then devices (or the fallback), the logged and fixed events, 24 metrics per device with its own draws within its status's ranges, and 150 activities with their drawn kinds and local addresses, stamped now |
| LoadRealData.MetricKeywordsRejected | load_real_data.py:225-231 | `SystemMetrics` does not take this script's metric keywords |
| LoadRealData.RunAsWritten | load_real_data.py:45-231 | as written: devices (or the fallback) and events as in `Run`, then the run raises with no metric and no activity |
| CleanEtl.CleanDeviceFacts | clean_etl.py:57-93 | hostname and address carry no surrounding whitespace, a missing `Device` gives the empty hostname, the type and status follow the shared tables (never warning), and the notes are kept as read |
| CleanEtl.CleanInventoryCompletes | clean_etl.py:57-96 | on unique hostnames the inventory always loads completely, empty addresses included (see Left out) |
| CleanEtl.CleanEventFacts | clean_etl.py:106-127 | a logged event is a threat exactly when it is critical, and its details name its label |
| CleanEtl.DemoEventsFacts | clean_etl.py:139-165 | three fixed critical threats from distinct sources |
| CleanEtl.LoadDevicesAndEvents | clean_etl.py:57-165 | devices, then at most 50 logged events and the fixed ones, with the counts reported |
| CleanEtl.Run | clean_etl.py:20-214 | events, metrics and activities cleared; devices, events, 24 metrics within the demo ranges; the report says "SUCCESS" with the three counts |
| SimpleLoad.StatusTable | simple_load.py:68-69 | one keyword rule with active as fallback, never warning; every note the shared risk rule flags is flagged here too |
| SimpleLoad.SimpleDeviceFacts | simple_load.py:53-87 | a row raises exactly when a key column is missing; a loaded device is never a workstation |
| SimpleLoad.DeviceCount | simple_load.py:53-87 | a positive device count means the table was read and loaded to the end |
| SimpleLoad.EventTable | simple_load.py:101-118 | login is a critical threat, checkout a warning, the rest informational; threats are exactly those of the login rule |
| SimpleLoad.DemoEventsFacts | simple_load.py:140-166 | three fixed critical threats |
| SimpleLoad.LoadDevicesAndEvents | simple_load.py:53-166 | devices, then at most 50 logged events and the fixed ones |
| SimpleLoad.Run | simple_load.py:25-227 | events, metrics and activities cleared; devices, events, 24 metrics within the demo ranges, 100 activities with their drawn kinds and local addresses, stamped now |
| CleanLoad.CleanLoadDeviceFacts | clean_load.py:45-74 | a row raises exactly when a key column is missing; a loaded device is never a workstation |
| CleanLoad.CleanLoadEventFacts | clean_load.py:85-104 | a logged event is a threat exactly when it is critical, exactly for login labels |
| CleanLoad.DemoEventsFacts | clean_load.py:115-134 | two fixed critical threats |
| CleanLoad.LoadDevicesAndEvents | clean_load.py:45-134 | devices, then at most 50 logged events and the fixed ones |
| CleanLoad.Run | clean_load.py:21-176 | events, metrics and activities cleared; devices, events, 24 metrics within the demo ranges, 50 activities with their drawn kinds and local addresses, stamped now |
| LoadYourData.YourTypeTable | load_your_data.py:33-37 | two case-sensitive rules, `Router` then `Printer`, with server as the fallback; never a workstation |
| LoadYourData.LowercaseRoleIgnored | load_your_data.py:33-37 | the type test is case-sensitive: a lowercase "router" role gives a server |
| LoadYourData.YourDeviceFacts | load_your_data.py:32-47 | a row raises exactly when a key column is missing; a loaded device is active and never a workstation |
| LoadYourData.YourEventFacts | load_your_data.py:57-71 | the category is the first match of login, checkout; a warning exactly when one of them occurs; never critical and never a threat; the details carry the label as written |
| LoadYourData.YourEvents | load_your_data.py:57-71 | one event per row, in order |
| LoadYourData.LoadEvents | load_your_data.py:53-78 | the first `min(n, 100)` rows become events; a failed read adds none |
| LoadYourData.Run | load_your_data.py:16-81 | devices, then the events of the first `min(n, 100)` rows in order, stamped now, none a threat, and no event when the file cannot be read; nothing is deleted |
| Comparisons.CriticalKeywordsNested | etl_pipeline.py:425 | the critical keyword sets of the scripts are nested: critical under a smaller set is critical under every larger one |
| Comparisons.NeedsPatchWarnsInPipeline | etl_pipeline.py:426 | "needs patch" is a warning for the pipeline |
| Comparisons.NeedsPatchActiveInSetup | database_setup.py:119-124 | "needs patch" is active for database_setup.py |
| Comparisons.LoginSeverityDiffers | fix_data_loading.py:136-139 | a login label is a critical threat everywhere except fix_data_loading.py, where it is a warning |
| Comparisons.CheckoutMappings | etl_pipeline.py:441-442 | a checkout label without login is never a threat, but its class differs between the scripts |
| Comparisons.DefaultTypeDiffers | simple_load.py:57-65 | a role naming none of the keywords is a workstation for the pipeline but a server for simple_load.py and clean_load.py; a router is a router everywhere |
| SecurityViews.GetDateFilter | apps/security/views.py:18-45 | an event is admitted exactly when it is after a parsed start, before a parsed end, and inside the default window when neither parameter is given; an unparsable date adds no condition |
| SecurityViews.Conjoin | apps/security/views.py:29 | `filters &= Q(...)` admits exactly what the old filter and the new condition both admit |
| SecurityViews.CountStatusBounds | apps/security/views.py:84 | the active count is the total exactly when every device is active, and zero exactly when none is |
| SecurityViews.SystemHealthRange | apps/security/views.py:78-85 | health lies in 0..100; it is 100 exactly when every device is active (so with no devices), and for a non-empty table 0 exactly when none is |
| SecurityViews.ThreatFilterFacts | apps/security/views.py:110-112 | `is_threat` filters on true exactly for "true", "1", "yes" in any case; any other supplied text filters on false |
| SecurityViews.Where | apps/security/views.py:99-112 | the queryset holds exactly the events that pass the date filter and every supplied parameter |
| SecurityViews.WhereCounts | apps/security/views.py:99-112 | each selected event is in the queryset as often as in the table, and no other event is |
| SecurityViews.RecentEventsShape | apps/security/views.py:115-131 | the total counts every selected event; at most 100 are shown, newest first |
| SecurityViews.RecentEventsFromQueryset | apps/security/views.py:115-131 | the shown events are a sub-multiset of the queryset: none is shown more often than it is selected |
| SecurityViews.RecentEventsNewest | apps/security/views.py:115 | every shown event is selected, and no selected event left out is newer than a shown one |
| DeviceViews.LeadingDigits | apps/security/views.py:280 | the digits in front of a text are a prefix of it |
| DeviceViews.LeadingDigitsOf | apps/security/views.py:280 | digits followed by a non-digit are read back exactly |
| DeviceViews.LastSeenReadsBack | apps/security/views.py:280 | the last-seen text reads back as the minutes below an hour, and as the whole hours otherwise |
| DeviceViews.LastSeenRanges | apps/security/views.py:274-280 | a critical device reads 1 to 24 hours ago; any other device 1 to 59 minutes ago, or 1 hour ago when its draw is 60 |
| DeviceViews.NetworkStatusRows | apps/security/views.py:272-291 | one entry per device, in order, with its hostname, address, type, status and OS, its notes or `None` for empty notes, and the last-seen text of its draw (the second draw for a critical device) |
| DeviceViews.VulnTierTable | apps/security/views.py:324-337 | the tier is the first match of the critical, high and medium keyword lists, low otherwise; the score is the level's score |
| DeviceViews.LevelScoreOrder | apps/security/views.py:328-337 | scores order the levels: equal scores mean equal levels, a higher score a more severe level |
| DeviceViews.RemediationPriorityFacts | apps/security/views.py:347 | high exactly from 7, medium exactly from 5 below 7, low below 5; critical and high levels are high priority, medium medium, low low |
| DeviceViews.VulnerabilityOfFacts | apps/security/views.py:319-348 | a device is excluded exactly when its notes are empty; otherwise its entry carries its fields and its notes' tier |
| DeviceViews.CountLevel | apps/security/views.py:355-365 | a level count never exceeds the number of entries |
| DeviceViews.CountLevelsTotal | apps/security/views.py:353-366 | the four level counts add up to the total |
| DeviceViews.VulnerabilityReport | apps/security/views.py:316-368 | the entries are a permutation of the noted devices' entries, sorted by descending score, stably; the summary counts match the entries |
| DeviceViews.CollectVulnerabilities | apps/security/views.py:319-348 | the collected entries are exactly the noted devices' entries, in table order |
| DeviceViews.ReportCoversNotedDevices | apps/security/views.py:319 | every entry has notes, and every device with notes is reported |
| MetricsViews.Least | apps/security/views.py:467-469 | the minimum is a value of the column and at most every value |
| MetricsViews.Greatest | apps/security/views.py:464-466 | the maximum is a value of the column and at least every value |
| MetricsViews.SumBetween | apps/security/views.py:461-463 | bounds on every value bound the sum |
| MetricsViews.MeanBetween | apps/security/views.py:461-463 | bounds on every value bound the mean |
| MetricsViews.LeastMeanGreatest | apps/security/views.py:460-470 | minimum, mean and maximum are ordered |
| MetricsViews.StatusOfTable | apps/security/views.py:479-484 | critical exactly past one of 80/85/500, good exactly within 60/70/300, warning in between |
| MetricsViews.StatusOfMonotone | apps/security/views.py:479-484 | the status only gets worse as any average rises |
| MetricsViews.CpuColumn | apps/security/views.py:461 | the cpu column of the window |
| MetricsViews.MemoryColumn | apps/security/views.py:462 | the memory column of the window |
| MetricsViews.ResponseColumn | apps/security/views.py:463 | the response-time column of the window |
| MetricsViews.OverviewFacts | apps/security/views.py:446-486 | an empty window reports zeros and no data points; otherwise each average lies between its minimum and maximum, which are values of the window, and the status is read off the averages |
| MetricsViews.AllHotIsCritical | apps/security/views.py:479-480 | a window whose every sample is past a critical limit of one column reports critical |
| MetricsViews.AllQuietIsGood | apps/security/views.py:483-484 | a window whose samples are all within the warning limits reports good |
| MetricsViews.InWindow | apps/security/views.py:444 | the window holds exactly the metrics the date filter admits |
| MetricsViews.InWindowCounts | apps/security/views.py:444 | each admitted metric is in the window as often as in the table, and no other metric is |
| MetricsViews.PerformanceOverview | apps/security/views.py:439-488 | the overview of exactly the metrics admitted by the date filter with the 24-hour default |

## Left out

- Products (`create_sample_products` and its siblings): they never reach the security or metrics views.
- The admin user and its `get_or_create`, with the password: no modelled table depends on it.
- Printing, logging and progress output, the pipeline's JSON report file and `etl_report.json`. `CleanEtl.Run` returns the report instead of writing it.
- pandas itself:
  - `NaN` cells are modelled as missing cells (`None`);
  - `str(row.get(...))` of a non-string cell is modelled as the cell's text.
- Floating point: averages, health and metrics use exact reals.
  - `round(x, 1)` in system health and `round(x, 2)` of the stored metrics are not modelled.
  - `SecurityViews.SystemHealth` is therefore the unrounded percentage.
- Gaussian noise is a parameter. Only the clamping and truncation applied to it are modelled.
- Keyword arguments the models do not define are listed under Findings. The calls that pass them raise `TypeError`. `FixDataLoading.RunLoading` and `LoadRealData.Run` model the calls as storing the fields the models do have.
- Django's ordering among equal timestamps: `RecentEvents` sorts stably in store order.
- `network_status`:
  - the `status` and `device_type` query filters;
  - the ordering by hostname;
  - the `by_status` and `by_type` summaries.

  Only the per-device entries are modelled.
- `dashboard_stats`, `performance_timeline`, and the export, timeline, trend and threat-analysis views.
- `apps/analytics/views.py` and the dashboard: their logic is not part of this model.
- The icon in front of simple_load.py's fixed event details is mis-encoded in the file. It is modelled as U+1F6A8, the icon load_real_data.py uses.
- The amount in event details (`:.2f`) is taken as a whole number of cents.
- QuadValidity: only the ASCII digits 0-9 count as digits. Python's `\d` and `int()` also accept the other Unicode decimal digits (Arabic-Indic digits, say), so the validator of etl_pipeline.py:400-403 accepts addresses `Ipv4.ValidIpAddress` rejects.
- Text.Lower: only ASCII case folding is modelled. Python's `lower()` also folds other letters (the Kelvin sign U+212A becomes `k`, so "CHEC\u212AOUT" is a checkout label for the pipeline) and can lengthen the text (`'İ'.lower()` has two characters). Every classifier built on `Lower` inherits this.
- Ipv4.ValidIpAddress: only ASCII digits are modelled, for the same reason as QuadValidity.
- EtlPipeline.FinMarkEtlPipeline.CleanEventLogs: numeric cells are assumed numeric. A text `amount` cell (read at etl_pipeline.py:235) makes `amount > 0` at :469 raise `TypeError`; the handler at :257-259 skips that row, so fewer than `min(100, n)` events would result. The skip is not modelled.
- DatabaseSetup.LoadUserActivities: numeric cells are assumed numeric. A non-numeric `total_sales` cell makes `float()` at database_setup.py:343 raise `ValueError`, which only `FileNotFoundError` handling surrounds, so it escapes after some activities were created. The escape is not modelled.
- Store.GetOrCreate: an empty address is not rejected. `Device.ip_address` is a `GenericIPAddressField` without `null=True` (apps/security/models.py:7), and Django stores `''` in such a field as NULL. So creating a device whose address is empty raises `IntegrityError`, and `get_or_create` re-raises it. In the model the device is created.
- Store.Database.CreateDevice: the same empty-address `IntegrityError` is not modelled; the row is appended.
- Store.GetOrCreateKeepsUnique: "never fails" holds only when the address of a device that would be created is not empty (see `Store.GetOrCreate`).
- Store.LoadUntilFailureKeepsUnique: "can only stop on a missing column" holds only when every device that would be created has a non-empty address; an empty one would also stop the loop.
- Store.LoadPresentCompletes: the list loads to the end only when every device that would be created has a non-empty address.
- DatabaseSetup.LoadNetworkInventory: a whitespace-only `IP_Address` cell strips to `''` (database_setup.py:102), so the `create` at :126 raises. The handler at :140-142 would then keep the rows created so far and add the samples. The model imports every row.
- DatabaseSetup.LoadDevicesAndEvents: inherits the empty-address gap of `DatabaseSetup.LoadNetworkInventory`.
- CleanEtl.CleanRow: a missing `IP_Address` column or a whitespace-only cell gives the empty address (clean_etl.py:63). The first new hostname with it would raise at :74-83, and the handler at :86-87 would end the device loop with the count short. The model loads the row.
- CleanEtl.CleanInventoryCompletes: "always loads completely" holds only when every new hostname comes with a non-empty address.
- CleanEtl.LoadDevicesAndEvents: the device table and count inherit the empty-address gap of `CleanEtl.CleanRow`.
- CleanEtl.Run: the reported device count inherits the same gap.
- DatabaseSetup.SetupDatabase: `print_summary` (called at database_setup.py:92) reads `User` at :375, a name that is local to `setup_database`, so every setup that reaches it ends in `NameError` after all four tables are filled. The model stops before `print_summary`, and `raised` covers only the marketing loader's escape.
- apps/security/views.py:379 imports `SystemMetrics` and `UserActivity` from the security app's own models, which define neither, so importing the file as written fails. The view rules are modelled as they run once that import resolves, as the first import block (:11-12) does.
- DatabaseSetup.LoadSecurityEvents: an exception while creating a row would move on to the next file name, keeping the rows already created; in the model creating a row cannot fail.

## Findings

| source | as written | input that shows it | evidently intended | confidence | as-written member | corrected member |
|---|---|---|---|---|---|---|
| fix_data_loading.py:153-189 | Every `SecurityEvent.objects.create` passes `protocol` and `port`, which `SecurityEvent` does not define, so each call raises `TypeError`. The first logged row's failure is swallowed at :166-167; the first fixed event's escapes `main`, so no event, metric or activity is ever stored | any run in which loading the devices does not raise | the logged and fixed events are stored, then the metrics and activities are generated | not executed; high | FixDataLoading.RunLoadingAsWritten | FixDataLoading.RunLoading |
| fix_data_loading.py:227-237 | The metric `create` passes `device`, `metric_id`, `error_rate`, `active_users` and `request_count`, none of them `SystemMetrics` fields. It is never reached as written (row above), and would raise `TypeError` too | any call of `generate_system_metrics` | 24 metrics stored per device | not executed; high | FixDataLoading.KeywordsRejected | FixDataLoading.GenerateSystemMetrics |
| load_real_data.py:225-231 | The metric `create` passes `device`, which is not a `SystemMetrics` field. The first call raises `TypeError` and nothing catches it, so no metric, product or activity is stored | any run: the device table is never empty at that point | 24 metrics per device, then the products and the 150 activities | not executed; high | LoadRealData.RunAsWritten | LoadRealData.Run |
