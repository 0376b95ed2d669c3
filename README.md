# REMP campaign, beam and mailer core, in Dafny

This project models the parts of the REMP suite (Campaign, Beam and Mailer)
that hold decision logic, and proves what they promise:

- **Campaign activation** (`CampaignController`): a campaign is switched on
  or off through its schedule rows. Starting adds one EXECUTED schedule
  when none runs. Stopping stops every running or planned schedule.
  `toggleSchedules` and `processCampaignActivation` pick between the two.
  The module also covers the country pivot rows and the `variants` and
  `is_running` listing columns.
  The schedules table is a class whose `rows` the methods update. Each
  method is proved against a pure transition function (`Start`,
  `StopAll`, `Toggle`, `Activation`), and the lemmas are about those
  functions.
- **Segment cache job** (`SegmentCache`): refreshes the members of one
  campaign segment in Redis under `provider|code` with a 24-hour TTL.
  Redis is a class with the four commands the job issues (SCARD, DEL, SADD, EXPIRE). The job's
  `Handle` is proved to leave Redis in the state the pure `Refresh`
  function describes.
- **Time-spent aggregation** (`PageviewTimespent`): the 20-minute window,
  the per-article accumulation loop over journal records, and the
  200-id chunking.
- **Campaign form request** (`CampaignRequest`): the normalisation and
  defaults `all()` applies, and the per-variant rules of `rules()`.
- **Article list request** (`ArticlesListRequest`): the comma splitting
  of `ids` and `external_ids` before validation.
- **Embed markup** (`EmbedParser`): the HTML built for an embedded link.
- **Daily minute generator** (`DailyMinute`): parameter preprocessing, the
  name-day lookup and the shape of `process()`'s result.

`PhpValues` models the PHP runtime behaviour this code relies on:

- ordered arrays, where a read takes the first matching key and a write
  replaces the entry in place or appends it;
- `isset` and truthiness;
- `filter_var` with FILTER_VALIDATE_BOOLEAN and FILTER_VALIDATE_INT (64-bit range);
- integer-to-string conversion;
- `explode` and `implode`.

Calls into code that is not part of this model become parameters:

- the Schedule query scopes `running()`, `runningOrPlanned()` and `isRunning()`;
- the segment aggregator;
- the journal records;
- the current time;
- the name-day table;
- the rendered HTML and text of a newsletter;
- Carbon's day-date-time formatting.

## Model

| member | source | states |
|---|---|---|
| CampaignController.StartCampaignSchedule | Campaign/app/Http/Controllers/CampaignController.php:464-477 | returns true exactly when no schedule of the campaign is in the running scope, and then appends one EXECUTED schedule starting now; otherwise the rows are unchanged |
| CampaignController.StartTwice | Campaign/app/Http/Controllers/CampaignController.php:464-477 | a second activation right after a successful one adds nothing and reports no change |
| CampaignController.StopCampaignSchedule | Campaign/app/Http/Controllers/CampaignController.php:485-496 | returns true exactly when some schedule was running or planned; the rows become `StopAll` of the old rows |
| CampaignController.StopAllAt | Campaign/app/Http/Controllers/CampaignController.php:487-494 | each in-scope row of the campaign is STOPPED with end time now, every other row is unchanged, and the row count is kept |
| CampaignController.StopTwice | Campaign/app/Http/Controllers/CampaignController.php:485-496 | after stopping, no row is left in a scope that excludes stopped rows, so stopping again is a no-op |
| CampaignController.ToggleSchedules | Campaign/app/Http/Controllers/CampaignController.php:434-455 | rows and message after the call are those of `Toggle` on the old rows |
| CampaignController.ToggleMessages | Campaign/app/Http/Controllers/CampaignController.php:437-451 | a null order changes nothing and gives no message; a truthy order gives the activation message only when a schedule was added, any other order the deactivation message only when something was running or planned |
| CampaignController.ToggleOrderIsTruthiness | Campaign/app/Http/Controllers/CampaignController.php:442 | the order is the raw request value judged by PHP truthiness: "off" and "false" activate like true, "0" and 0 deactivate like false |
| CampaignController.ToggleMessageIffChanged | Campaign/app/Http/Controllers/CampaignController.php:442-451 | a message is returned exactly when the schedules changed |
| CampaignController.ToggleActive | Campaign/app/Http/Controllers/CampaignController.php:410-417 | toggles with the negation of the current `active` flag |
| CampaignController.ProcessCampaignActivation | Campaign/app/Http/Controllers/CampaignController.php:378-396 | for the raw request values of mode and order, rows and message after the call are those of `Activation` on the old rows |
| CampaignController.ActivationCases | Campaign/app/Http/Controllers/CampaignController.php:385-395 | in activate-schedule mode with a start time, exactly one schedule with that start and end is appended and a message is returned; otherwise the result is toggleSchedules' |
| CampaignController.ProcessCountries | Campaign/app/Http/Controllers/CampaignController.php:505-514 | the keys are exactly the given country ids, each mapped to the same blacklist flag |
| CampaignController.ShownExactly | Campaign/app/Http/Controllers/CampaignController.php:95-99 | a variant is shown exactly when it is in the input with a non-zero proportion; with no zero proportion all are shown as given |
| CampaignController.ShownInOrder | Campaign/app/Http/Controllers/CampaignController.php:95-116 | the shown variants are the input at a strictly increasing list of positions that holds every non-zero position, so each non-zero variant appears once, in input order |
| CampaignController.LabelShape | Campaign/app/Http/Controllers/CampaignController.php:102-113 | a control group is labelled "Control Group&nbsp;(", any other variant starts with its banner link; both end with the proportion and "%)" |
| CampaignController.VariantsColumn | Campaign/app/Http/Controllers/CampaignController.php:90-117 | one label per shown variant, in order |
| CampaignController.IsRunningColumn | Campaign/app/Http/Controllers/CampaignController.php:162-169 | true exactly when some schedule reports isRunning() |
| SegmentCache.CacheSegmentJob.constructor | Campaign/app/Jobs/CacheSegmentJob.php:28-32 | the job keeps its segment and its force flag, false by default |
| SegmentCache.CacheSegmentJob.Key | Campaign/app/Jobs/CacheSegmentJob.php:71-74 | the key splits back into the provider, a "\|" at the provider's length, and the code |
| SegmentCache.CacheKeyInjective | Campaign/app/Jobs/CacheSegmentJob.php:71-74 | with "\|"-free provider names, two segments share a key only if they are equal |
| SegmentCache.CacheSegmentJob.Handle | Campaign/app/Jobs/CacheSegmentJob.php:39-64 | Redis stays a valid keyspace and ends in the state `Refresh` gives for the old state |
| SegmentCache.Redis.Scard | Campaign/app/Jobs/CacheSegmentJob.php:41 | the member count, 0 exactly when the key is absent |
| SegmentCache.Redis.Del | Campaign/app/Jobs/CacheSegmentJob.php:59 | the key and its TTL are gone, nothing else changes |
| SegmentCache.Redis.Sadd | Campaign/app/Jobs/CacheSegmentJob.php:61 | the members are added to the key's set; TTLs are unchanged |
| SegmentCache.Redis.Expire | Campaign/app/Jobs/CacheSegmentJob.php:62 | an existing key gets the TTL, a missing one does not |
| SegmentCache.ShortCircuit | Campaign/app/Jobs/CacheSegmentJob.php:41-43 | a non-forced run on a populated key leaves the store alone whatever the aggregator answers |
| SegmentCache.DisabledOrFailedKeepsStore | Campaign/app/Jobs/CacheSegmentJob.php:45-57 | caching disabled or a failing provider leaves the store unchanged |
| SegmentCache.SuccessReplaces | Campaign/app/Jobs/CacheSegmentJob.php:59-63 | on success the key holds exactly the returned members with TTL 86400, or is absent when there are none |
| SegmentCache.OtherKeysUnchanged | Campaign/app/Jobs/CacheSegmentJob.php:59-62 | no key other than the job's own is written or deleted |
| SegmentCache.RefreshKeepsValid | Campaign/app/Jobs/CacheSegmentJob.php:59-63 | no empty set is stored and only existing keys carry a TTL |
| SegmentCache.ForcedRefreshIdempotent | Campaign/app/Jobs/CacheSegmentJob.php:59-63 | with the same provider answer, two forced runs leave the same store as one |
| SegmentCache.EmptyResultRequeries | Campaign/app/Jobs/CacheSegmentJob.php:41-60 | an empty answer leaves no entry, so the next non-forced run queries the provider again |
| PageviewTimespent.Window | Beam/app/Console/Commands/AggregatePageviewTimespentJob.php:28-29 | timeBefore is a 20-minute boundary at or before now and less than 20 minutes before it; timeAfter is 20 minutes earlier |
| PageviewTimespent.WindowUnique | Beam/app/Console/Commands/AggregatePageviewTimespentJob.php:28-29 | that boundary is the only one with this property |
| PageviewTimespent.ArticlesExactly | Beam/app/Console/Commands/AggregatePageviewTimespentJob.php:56-63 | the aggregated articles are exactly those of records with a non-empty article_id, each listed once |
| PageviewTimespent.TotalOfUnseen | Beam/app/Console/Commands/AggregatePageviewTimespentJob.php:65-67 | an article not yet seen starts from 0 in every column |
| PageviewTimespent.PartialTotalsBounded | Beam/app/Console/Commands/AggregatePageviewTimespentJob.php:69-75 | with non-negative sums, the signed-in and subscriber totals lie between 0 and the total |
| PageviewTimespent.SkipStep | Beam/app/Console/Commands/AggregatePageviewTimespentJob.php:56-59 | a record with an empty article_id changes no total |
| PageviewTimespent.AddStep | Beam/app/Console/Commands/AggregatePageviewTimespentJob.php:63-75 | adding a record's sum to its article's entries, counted only where its flag parses as true, keeps the totals |
| PageviewTimespent.Aggregate | Beam/app/Console/Commands/AggregatePageviewTimespentJob.php:51-78 | the three maps share one key set, the articles in first-seen order; each entry is the sum over that article's records, the signed-in and subscriber ones over the records whose flag parses as true |
| PageviewTimespent.ChunkCorrect | Beam/app/Console/Commands/AggregatePageviewTimespentJob.php:87 | every chunk holds 1 to 200 ids and the chunks concatenate to the ids in order |
| PageviewTimespent.Handle | Beam/app/Console/Commands/AggregatePageviewTimespentJob.php:22-87 | a single record without article_id ends early; no aggregated article ends before storing; otherwise the window, the totals and the chunks of the article ids are handed on |
| CampaignRequest.All | Campaign/app/Http/Requests/CampaignRequest.php:58-104 | fails exactly when pageview_rules is a scalar that cannot be indexed; otherwise signed_in and using_adblock exist and read as before, the pattern lists are cleaned, active and once_per_session go through getBoolean (a boolean for a scalar, an array of booleans for an array), pageview_rules is normalised, and every other field is kept |
| CampaignRequest.FilterTruthyExactly | Campaign/app/Http/Requests/CampaignRequest.php:70-75 | array_filter keeps exactly the truthy entries |
| CampaignRequest.FilterTruthyInOrder | Campaign/app/Http/Requests/CampaignRequest.php:70-75 | array_filter keeps the entries' relative order |
| CampaignRequest.Reindex | Campaign/app/Http/Requests/CampaignRequest.php:70-75 | array_values keys the values 0, 1, 2, ... in order |
| CampaignRequest.CleanPatternsSound | Campaign/app/Http/Requests/CampaignRequest.php:70-75 | a cleaned list is keyed from 0 and holds only truthy values taken from the list |
| CampaignRequest.CleanPatternsComplete | Campaign/app/Http/Requests/CampaignRequest.php:70-75 | every truthy value of the list survives cleaning |
| CampaignRequest.CleanPatternsOfTruthy | Campaign/app/Http/Requests/CampaignRequest.php:70-75 | a list without falsy entries keeps all its values, in order, re-keyed from 0 |
| CampaignRequest.DefaultDisplayTimes | Campaign/app/Http/Requests/CampaignRequest.php:67-69 | the default changes nothing but display_times, and nothing filter_var can tell apart |
| CampaignRequest.NormaliseDefaultedRules | Campaign/app/Http/Requests/CampaignRequest.php:67-100 | display_times becomes the filter_var boolean of the submitted value, the four integer rules become their filter_var integers with default 2, and every other rule is kept |
| CampaignRequest.RuleDefaults | Campaign/app/Http/Requests/CampaignRequest.php:76-100 | an integer rule sent as a 64-bit integer keeps its value, a missing or null rule becomes 2, an array rule becomes false and so fails the `integer` rule, and a missing display_times becomes false |
| CampaignRequest.RuleDefaultsOfScalars | Campaign/app/Http/Requests/CampaignRequest.php:81-100 | a rule sent as a 64-bit integer's decimal string becomes that integer, any other non-integer scalar becomes 2, and so every scalar rule passes `integer` |
| CampaignRequest.NormalisedFlagPassesBoolean | Campaign/app/Http/Requests/CampaignRequest.php:101-102 | active and once_per_session after all() pass the `boolean` rule exactly when the submitted value was not an array |
| CampaignRequest.VariantPassesMeans | Campaign/app/Http/Requests/CampaignRequest.php:50-53 | a passing variant has an integer proportion from 0 to 100 and, outside the control group, a banner |
| CampaignRequest.ControlGroupNeedsNoBanner | Campaign/app/Http/Requests/CampaignRequest.php:50-53 | a variant with control_group 1 passes without a banner; one with control_group 0 and no banner fails |
| CampaignRequest.ProportionOutOfRangeFails | Campaign/app/Http/Requests/CampaignRequest.php:50 | a proportion below 0 or above 100 fails |
| ArticlesListRequest.FilterPieces | Beam/app/Http/Requests/ArticlesListRequest.php:17-18 | array_filter keeps at most as many entries as there are pieces |
| ArticlesListRequest.FilterPiecesExactly | Beam/app/Http/Requests/ArticlesListRequest.php:17-18 | the kept entries are exactly the truthy pieces under their original positions |
| ArticlesListRequest.FilterPiecesOrdered | Beam/app/Http/Requests/ArticlesListRequest.php:17-18 | the kept keys increase strictly; nothing is re-indexed |
| ArticlesListRequest.SplitIds | Beam/app/Http/Requests/ArticlesListRequest.php:17-18 | fails (TypeError) exactly for an array parameter |
| ArticlesListRequest.SplitIdsSound | Beam/app/Http/Requests/ArticlesListRequest.php:17-18 | every kept id is a comma-free piece other than "" and "0", keyed by its position |
| ArticlesListRequest.SplitIdsComplete | Beam/app/Http/Requests/ArticlesListRequest.php:17-18 | every piece other than "" and "0" is kept, and the pieces join back to the string |
| ArticlesListRequest.SplitIdsOfNull | Beam/app/Http/Requests/ArticlesListRequest.php:17-18 | a missing parameter gives an empty list |
| ArticlesListRequest.PrepareForValidation | Beam/app/Http/Requests/ArticlesListRequest.php:14-20 | fails exactly when a field is an array; otherwise the input holds only the two split lists |
| ArticlesListRequest.PreparedPassesRules | Beam/app/Http/Requests/ArticlesListRequest.php:23-30 | a prepared input always passes the array rules |
| EmbedParser.CreateEmbedMarkup | Mailer/app/Models/Generators/EmbedParser.php:8-27 | starts with "<br>"; a tweet without image is the Twitter button; otherwise the anchor, the thumbnail or link, the optional video paragraph and the closing anchor |
| EmbedParser.AnchorEmbed | Mailer/app/Models/Generators/EmbedParser.php:10-26 | a non-Twitter embed opens with the anchor to the link and ends with "</a>" and a line break |
| EmbedParser.ImageEmbed | Mailer/app/Models/Generators/EmbedParser.php:14-15 | with an image, the output holds the img tag with the image as src and the title as alt, even for a tweet link |
| EmbedParser.TwitterEmbed | Mailer/app/Models/Generators/EmbedParser.php:16-17 | without an image, a tweet link gives a button pointing at it, whatever the video flag |
| EmbedParser.LinkEmbed | Mailer/app/Models/Generators/EmbedParser.php:18-19 | without an image or tweet, the output holds the underlined link |
| EmbedParser.VideoEmbed | Mailer/app/Models/Generators/EmbedParser.php:22-24 | a video embed ends with the italic video-link paragraph before the closing anchor; without the flag the thumbnail or link comes right before it |
| DailyMinute.PreprocessParameters | Mailer/app/Models/Generators/DailyMinuteGenerator.php:107-125 | missing blocks fails first, then missing subject; otherwise exactly from (the fixed sender), blocks_json and subject |
| DailyMinute.NameDayIndex | Mailer/app/Models/Generators/DailyMinuteGenerator.php:133-134 | month counted from 0, day as it is |
| DailyMinute.NameDayIndexInjective | Mailer/app/Models/Generators/DailyMinuteGenerator.php:133-134 | distinct dates read distinct table entries |
| DailyMinute.NameDayCalendarEnds | Mailer/app/Models/Generators/DailyMinuteGenerator.php:133-136 | 1 January reads the table's entry (0, 1) and 31 December its entry (11, 31) |
| DailyMinute.NameDayReadsCalendarEntriesOnly | Mailer/app/Models/Generators/DailyMinuteGenerator.php:133-136 | only months 0 to 11 and days 1 to 31 of the table are read: tables agreeing there give every date the same names |
| DailyMinute.NameDayLookup | Mailer/app/Models/Generators/DailyMinuteGenerator.php:127-137 | the names at row month - 1, column day of the table, "" when that entry is absent |
| DailyMinute.ProcessResult | Mailer/app/Models/Generators/DailyMinuteGenerator.php:98-104 | from and subject passed through, errors empty, the rendered contents |
| DailyMinute.PreprocessThenProcess | Mailer/app/Models/Generators/DailyMinuteGenerator.php:98-125 | a post with blocks and subject is sent from the fixed sender under its own subject, without errors |
| PhpValues.GetSet | Campaign/app/Http/Requests/CampaignRequest.php:68 | after `$a[$k] = $v` the key reads $v and every other key reads as before |
| PhpValues.FilterIntDecimal | Campaign/app/Http/Requests/CampaignRequest.php:81-85 | every 64-bit integer's decimal spelling passes FILTER_VALIDATE_INT as itself |
| PhpValues.FilterIntOfInt | Campaign/app/Http/Requests/CampaignRequest.php:81-85 | an integer within the 64-bit range passes FILTER_VALIDATE_INT unchanged, whatever the default |
| PhpValues.FilterInt | Campaign/app/Http/Requests/CampaignRequest.php:81-85 | false exactly for an array; for a scalar, the default or a 64-bit integer |
| PhpValues.GetBoolean | Campaign/app/Http/Requests/CampaignRequest.php:101-102 | a scalar becomes its FILTER_VALIDATE_BOOLEAN result; an array stays an array of the same keys, filtered element by element |
| PhpValues.NatToDecimalCorrect | Campaign/app/Http/Controllers/CampaignController.php:103 | the decimal spelling of a number is a digit string without a leading zero whose value is the number |
| PhpValues.ExplodeImplode | Beam/app/Http/Requests/ArticlesListRequest.php:17 | explode's pieces hold no separator and implode gives the string back |

## Left out

- Campaign glue is not modelled: views, DataTables wiring, `showtime`, `saveCampaign`, `getAllSegments`, `processOldCampaign` and the JSON responses. None of it decides anything the model covers.
- The Schedule scopes `running()`, `runningOrPlanned()` and `isRunning()`, and the Campaign `active` accessor, are not part of this model. The operations take them as parameters. `StopTwice` and `ToggleMessageIffChanged` assume only that the stop scope never selects a STOPPED schedule. `StartTwice` assumes only that the running scope selects the EXECUTED schedule it has just added, starting now.
- CampaignController.ProcessCampaignActivation: a schedule created from explicit start and end times has no status of its own, so its status is `None`, meaning the database column default.
- Carbon's `toDayDateTimeString` formatting is a parameter.
- The Redis connection, the queue, logging, and races between refresh jobs are not modelled. TTL expiry over time is not modelled either: a TTL is kept as the number the job set.
- PageviewTimespent.Aggregate: reading a missing `signed_in` or `subscriber` tag raises a notice, which Laravel's error handler turns into an exception that aborts the command. The model reads a missing tag as None, which counts as neither signed in nor subscriber. The journal groups every record by both tags, so both are always present in what it returns.
- The journal API call, the `--article_id` filter, progress bars and the storing phase (DB writes) of the aggregation command are not modelled. The journal's answer is the record list the model receives.
- CampaignRequest.All: Laravel's error handler turns reads of a missing key into exceptions. The model reads a missing key as null instead, as PHP does by default.
- CampaignRequest.All: `active` and `once_per_session` are read from the request's input source, which for a GET request differs from the merged data `parent::all()` returns. The model reads them from the same data.
- CampaignRequest.All: the request data is a record of the seven fields `all()` handles by name plus a map of the others, so key order is not kept. The validator reads the data by key only.
- The remaining rules of `rules()` are plain Laravel validation and are not modelled. That includes the `VariantsProportionSum` rule, which is not part of this model.
- PHP turns numeric string keys into integer keys. The model keeps string and integer keys apart. The request code writes only literal field names and positional keys. The aggregation keys its totals by article id, and the storing phase turns those keys back into strings with `strval`, so the conversion changes nothing the model covers.
- The `required_unless:...,1` comparison is modelled as "control_group parses as 1". For every value that also passes the `integer` rule, this agrees with Laravel's loose comparison.
- DailyMinute.ProcessResult: the WordpressBlockParser, the template engine and the source-template lookup are not part of this model. The rendered HTML and text are parameters.
- DailyMinute.NameDayNamesForDate: reading and decoding namedays.json is not modelled. The decoded table is a parameter.
- EmbedParser.CreateEmbedMarkup: `videoLinkText` is the parser's configured field and is passed as a parameter. `preg_match('/twitt/')` is modelled as a substring test, which is what that pattern matches.
