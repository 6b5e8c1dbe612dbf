# NanoTox dashboard analytics in Dafny

This project models the in-memory analytics of the NanoTox AI Flask service
(`main.py`). It covers:

- the event lists for predictions, contact requests and dataset sharing
  requests, trimmed to their capacities by `_limit_list`;
- the `/predict` success and failure counters and the 500-entry window of
  response times that `_record_request_stats` maintains;
- the dashboard logging blocks of `predict`, `contact_us` and `share_dataset`;
- every `/api/dashboard/*` query;
- the input helpers `sanitize_input`, `is_valid_email` and
  `detect_prediction_mode`, and the required-field checks of the two forms.

Modules:

| file | module | contents |
|---|---|---|
| `seqs.dfy` | `Seqs` | The newest `maxlen` elements of a list (what `_limit_list` and `deque(maxlen=…)` keep), reversal, and Python slices with clamping and negative bounds. |
| `text.dfy` | `Text` | Python's `str.strip()` whitespace set, `sanitize_input`, the one-character mappings of `str.upper()` that yield ASCII letters, and the email regular expression. |
| `events.dfy` | `Events` | The three stored record types. |
| `requests.dfy` | `Requests` | Mode detection, the required-field loop, and the validation the two form handlers do before sending mail. |
| `buffers.dfy` | `Buffers` | A mutable list with `_limit_list`, and a bounded deque. |
| `queries.dfy` | `Queries` | The dashboard queries computed as functions: stats, request stats, toxicity distribution, contact and dataset lists, recent predictions, history pages. |
| `tallies.dfy` | `Tallies` | Counting by key, as the `defaultdict` loops do, and the fact that the per-key counts add up to the number of elements. |
| `dayseries.dfy` | `DaySeries` | The loop of `predictions-over-time` and its date-sorted series. |
| `typeseries.dfy` | `TypeSeries` | The loop of `nanoparticle-types` and its series, sorted by count and stable. |
| `analytics.dfy` | `Analytics` | The `Store` class that holds all module-level state, the handlers that write to it, and the read-only endpoints. |

The `Store` keeps ghost logs of every event ever accepted and every request
ever completed. Its invariant `Valid` ties each trimmed list, the response
window and the two counters to those logs:

- each list equals the newest entries of its log, up to the list's capacity;
- each counter is a count over the completions;
- the window holds the newest times of the successful `/predict` requests.

The wall clock is a parameter: the `now` timestamp and the elapsed
milliseconds of a request. The SMTP outcome is also a parameter: the `sent`
flag of `SubmitContact` and `ShareDataset`. A JSON body is a
`map<string, string>`. A missing key and a JSON `null` or empty value both
read as `""`.

## Model

| member | source | states |
|---|---|---|
| `Seqs.Newest` | main.py:92-94 | What `_limit_list` leaves: the last `min(len, maxlen)` elements, in their original order. |
| `Seqs.NewestWhenFits` | main.py:93 | A list no longer than `maxlen` is left unchanged. |
| `Seqs.NewestAppend` | main.py:688 | Appending and then trimming, over and over, gives the same list as trimming the whole history once, so the stored list is always the newest window of everything logged. |
| `Seqs.NewestEvictsOldest` | main.py:92-94 | With exactly one element too many, trimming drops the oldest element and only that one. |
| `Buffers.EventList.DeletePrefix` | main.py:94 | `del lst[:k]` removes the first `k` elements, clamped to the list's length. |
| `Buffers.EventList.Append` | main.py:678 | `list.append` adds one element at the end. |
| `Buffers.LimitList` | main.py:92-94 | Trims the list in place to `Newest(old, maxlen)`; a list that fits is not touched. |
| `Buffers.BoundedDeque.Append` | main.py:90 | `deque(maxlen).append` keeps the newest `maxlen` elements of the old contents plus the new one, and stays within `maxlen`. |
| `Seqs.Reverse` | main.py:883 | `reversed` puts element `len-1-k` at position `k`. |
| `Seqs.ReverseInvolutive` | main.py:916 | Reversing twice gives the original list. |
| `Seqs.NewestReversed` | main.py:907 | Reversing the newest `n` elements lists the newest element first, then the ones before it. |
| `Seqs.PySlice` | main.py:907 | A Python slice never has more elements than the list. |
| `Seqs.SliceBound` | main.py:907 | Python's clamping of one slice bound: a negative bound counts from the end, and the result lies between 0 and the length. |
| `Seqs.PySliceNonNegative` | main.py:917 | With non-negative bounds a Python slice is the Dafny slice between the clamped bounds. |
| `Seqs.PySliceNegativeStart` | main.py:907 | `s[-k:]` for `k >= 1` is the newest `k` elements. |
| `Seqs.PySlicePrefix` | main.py:733 | `s[:n]` is the first `min(n, len)` elements. |
| `Seqs.Window` | main.py:917 | The page `s[offset:offset+limit]` has `min(limit, len - offset)` elements, and element `k` is `s[offset+k]`. |
| `Seqs.PySliceWindow` | main.py:917 | The Python slice of the history page equals `Window`. |
| `Seqs.WindowsAdjoin` | main.py:917 | Two consecutive pages of size `limit` together make the page of size `2*limit`. |
| `Analytics.Store.constructor` | main.py:84-90 | At start-up all lists and logs are empty, both counters are 0, and the invariant holds. |
| `Analytics.Store.LogPrediction` | main.py:678-688 | Logging a prediction appends it to the log and leaves the stored list equal to the newest 2000 entries of old list plus new entry; the invariant is kept. |
| `Analytics.Store.CountSuccess` | main.py:104-107 | A successful `/predict` adds one to the success counter and pushes its time into the 500-entry window. |
| `Analytics.Store.CountFailure` | main.py:108-110 | A failed `/predict` adds one to the failure counter only. |
| `Analytics.Store.CountNothing` | main.py:102 | A request to any other path changes no counter. |
| `Analytics.Store.RecordRequestStats` | main.py:100-111 | The after-request hook: only `/predict` is counted. Status below 400 adds to the successes and the window. Status 400 or above adds to the failures and leaves the window alone. Every request is recorded as a completion, and the invariant is kept. |
| `Analytics.CompletionStep` | main.py:102-110 | One more completion adds its time to the success times only if it succeeded. It adds one to exactly one of the success, failure and predict counts, as its path and status say. |
| `Analytics.SuccessStep` | main.py:104-107 | After a success, the window appended and trimmed equals the newest 500 success times of the extended history. |
| `Analytics.CountsPartitionPredictRequests` | main.py:102-110 | Every `/predict` is counted exactly once, as a success or as a failure, and there is one response time per success. |
| `Analytics.WindowBound` | main.py:90 | The window never holds more than 500 times, nor more times than successes. Until 500 successes, it holds all of them. |
| `Analytics.Store.CountersAgree` | main.py:872 | In every reachable state, success plus failed equals the number of `/predict` requests completed. The window holds `min(successes, 500)` times. |
| `Analytics.Store.Bounded` | main.py:85-90 | The stored lists never exceed 2000, 500 and 500 entries, and the window never exceeds 500. |
| `Analytics.Store.OldestPredictionEvicted` | main.py:688 | Once the 2001st prediction is logged, the oldest is gone and the list starts at the second one logged. |
| `Requests.DetectPredictionMode` | main.py:457-477 | The mode is biological exactly when one of the keys `environmental_pH`, `temperature` or `protein_corona` is present, whatever its value. |
| `Requests.ModeDependsOnlyOnKeys` | main.py:462-471 | Two payloads with the same keys get the same mode. |
| `Requests.Get` | main.py:715-716 | `data.get(key, '')`: the value, or `""` when the key is absent. |
| `Requests.Present` | main.py:709 | The required-field test: the value is non-empty and not all whitespace. |
| `Requests.PresentIffStripped` | main.py:709 | A field passes the required check exactly when it is non-empty and its `.strip()` is non-empty. |
| `Requests.FirstMissingIndex` | main.py:708-710 | The loop stops at the first required field that is absent; every field before it is present. |
| `Requests.FirstMissingIndexAll` | main.py:708-710 | The loop runs through all fields exactly when every required field is present. |
| `Requests.AllPresentOfThree` | main.py:707-710 | For three fields, all present means each of the three is present. |
| `Requests.FirstMissingOfThree` | main.py:761-764 | For three fields the loop reports the first absent one in list order. |
| `Requests.ValidateContact` | main.py:701-733 | An empty payload is rejected as no data, and only then. A reported missing field is required and absent, and the fields before it are present. An invalid email is reported exactly when all fields are present and the sanitized email fails the pattern. The result is accepted exactly when neither happens. An accepted record holds the sanitized fields, with the message cut to its first 500 characters. |
| `Requests.ValidateDataset` | main.py:755-790 | The same for dataset sharing: the required fields are name, email and description, and the description is cut to its first 1000 characters. |
| `Requests.StoredContact` | main.py:727-734 | The stored contact holds the time, the sanitized name, email, profession and phone, and the sanitized message cut to its first 500 characters. |
| `Requests.StoredDataset` | main.py:782-790 | The stored dataset request holds the time, the sanitized fields, and the sanitized description cut to its first 1000 characters. |
| `Requests.StatusCode` | main.py:703-744 | The status is 400 exactly for a rejected payload, and 200 otherwise, also when the mail could not be sent. |
| `Requests.ContactFieldsClean` | main.py:713-733 | Every field of an accepted contact is free of `<>"'`. Name, email, profession and phone have no edge whitespace; the message, cut to 500 characters after sanitizing, may end in whitespace. The email matches the address pattern. |
| `Analytics.Store.StoreContact` | main.py:727-735 | A sent contact is appended to the log, and the list is trimmed to the newest 500. |
| `Analytics.Store.SubmitContact` | main.py:696-744 | A rejected payload gets its reason. A valid one whose mail fails gets the failure reply. Only a valid, sent one is stored, as its validated record, and nothing changes otherwise. |
| `Analytics.Store.StoreDataset` | main.py:782-791 | A sent dataset request is appended to the log, and the list is trimmed to the newest 500. |
| `Analytics.Store.ShareDataset` | main.py:750-800 | The same replies and storage rule for dataset sharing. |
| `Text.IsSpace` | main.py:485 | The characters for which `str.isspace()` holds, the ones `strip()` removes. |
| `Text.TrimStart` | main.py:485 | Removes exactly the leading whitespace run; the result is a suffix that does not start with whitespace. |
| `Text.TrimEnd` | main.py:485 | Removes exactly the trailing whitespace run; the result is a prefix that does not end with whitespace. |
| `Text.Strip` | main.py:485 | `str.strip()` leaves no whitespace at either edge and never grows the string. |
| `Text.StripSpec` | main.py:485 | The stripped string is the input between its leading and trailing whitespace runs. |
| `Text.StripKeepsTrimmed` | main.py:485 | Stripping a string without edge whitespace changes nothing. |
| `Text.StripEmptyIffAllSpace` | main.py:709 | `.strip()` is empty exactly when the string is all whitespace. |
| `Text.RemoveDangerous` | main.py:484 | The substitution leaves no `<`, `>`, `"` or `'` and never grows the string. |
| `Text.RemoveDangerousOne` | main.py:484 | On one character the substitution deletes `<`, `>`, `"` or `'` and keeps any other. Together with `RemoveDangerousConcat` this fixes the result on every string. |
| `Text.RemoveDangerousConcat` | main.py:484 | The substitution works character by character, so it distributes over concatenation. |
| `Text.RemoveDangerousKeepsClean` | main.py:484 | A string without those characters is left unchanged. |
| `Text.StripKeepsClean` | main.py:484-485 | Stripping cannot bring back a removed character. |
| `Text.Sanitize` | main.py:479-485 | `sanitize_input` returns a string free of `<>"'` and of edge whitespace. The empty input gives `""`. An already-clean string is returned unchanged. |
| `Text.SanitizeIdempotent` | main.py:479-485 | Sanitizing twice is the same as sanitizing once. |
| `Text.UpperChar` | main.py:861 | The one-character upper-case mappings that yield ASCII letters: `a`–`z` to `A`–`Z`, `ı` to `I`, `ſ` to `S`. Other characters are kept. |
| `Text.Upper` | main.py:861 | `str.upper()` restricted to one-character mappings: position `k` of the result is the upper case of position `k` of the input, under `UpperChar`. |
| `Text.MatchesAddress` | main.py:489 | The whole string is local part, `@`, domain, `.` and two or more ASCII letters, each part from its character class. |
| `Text.MatchesEmailPattern` | main.py:489-490 | What `re.match` with `^…$` accepts: a whole-string address, or an address followed by one final newline. |
| `Text.IsValidEmail` | main.py:487-490 | The decision procedure accepts exactly the strings that `re.match` with the pattern accepts, including the trailing newline that `$` allows. |
| `Text.IndexOf` | main.py:489 | The first `@` of the string, or its length when there is none. |
| `Text.LastIndexOf` | main.py:489 | The last `.` of the string, or -1 when there is none. |
| `Text.CheckAddressExact` | main.py:489 | The executable check is equivalent to the pattern: one `@`, then a non-empty local part, a non-empty domain, a final dot and at least two letters. |
| `Text.MatchPositions` | main.py:489 | Where the pattern matches, its `@` is the first one in the string and its dot is the last one. |
| `Text.AddressShape` | main.py:489 | A matching address has a non-empty local part, exactly one `@`, and a top-level domain of two or more ASCII letters. |
| `Text.SanitizedEmailMatchesWhole` | main.py:714-720 | For a sanitized email without edge whitespace, validity means the whole string matches the address pattern. |
| `Text.DemoAddressAccepted` | demo_real_working.py:134 | The demo address `demo@example.com` is valid. |
| `Text.ShortDomainRejected` | main.py:489 | A one-letter top-level domain is rejected. |
| `Text.SecondAtRejected` | main.py:489 | A second `@` is rejected. |
| `Queries.Average` | main.py:844 | The average of the window is 0 when the window is empty; otherwise, times the number of entries, it is their sum. |
| `Queries.SumBounds` | main.py:844 | A sum of values between `lo` and `hi` lies between `n*lo` and `n*hi`. |
| `Queries.AverageBounds` | main.py:844 | The average lies between the smallest and largest bounds of the times. |
| `Queries.DashboardStats` | main.py:839-850 | `total_predictions` is the stored list's length, the counters are passed through, and the average is as above. |
| `Analytics.Store.GetStats` | main.py:839-850 | The stats endpoint over the store's state, with at most 2000 predictions. |
| `Queries.DashboardRequestStats` | main.py:869-877 | `total` is `success + failed`. |
| `Analytics.Store.GetRequestStats` | main.py:869-877 | The request stats over the store, whose total is the number of `/predict` requests completed. |
| `Queries.IsToxic` | main.py:929 | The verdict test: the upper-cased verdict equals `TOXIC`. |
| `Queries.IsToxicIff` | main.py:929 | `(toxicity or '').upper() == 'TOXIC'` holds exactly for the five-letter words `toxic` in any mix of cases, also with a dotless `ı`. `NON-TOXIC` never counts. |
| `Queries.ToxicCount` | main.py:929 | The toxic count never exceeds the number of predictions. |
| `Queries.ToxicCountAppend` | main.py:929 | The toxic count of two lists together is the sum of their counts. |
| `Queries.ToxicCountExtremes` | main.py:929 | The count is 0 exactly when no prediction is toxic, and the full length exactly when all are. |
| `Queries.ToxicityDistribution` | main.py:926-935 | `toxic` is the number of predictions with a toxic verdict, and `toxic + non_toxic == total == len`. There are no toxic ones exactly when none is toxic, and no non-toxic ones exactly when all are. |
| `Queries.DistributionAppend` | main.py:929-934 | Logging one more prediction adds one to `total` and one to exactly one of `toxic` or `non_toxic`, as its verdict says. |
| `Analytics.Store.GetToxicityDistribution` | main.py:926-935 | The distribution of the stored predictions. |
| `Analytics.Store.GetContactRequests` | main.py:880-883 | The stored contacts reversed, so newest first with the same entries and length. |
| `Analytics.Store.GetDatasetRequests` | main.py:886-889 | The stored dataset requests reversed, so newest first with the same entries and length. |
| `Queries.RecentPredictions` | main.py:903-908 | As written: for `limit >= 1`, the newest `min(limit, 100)` predictions, newest first. For `limit == 0`, `[-0:]` is the whole list reversed. For a negative limit, the list without its oldest `-limit` entries, reversed. |
| `Queries.RecentZeroLimitPassesCap` | main.py:906-907 | With `limit=0` and more than 100 stored predictions, more than 100 are returned. |
| `Queries.RecentNegativeLimitDropsOldest` | main.py:906-907 | With `limit=-1` all but the oldest prediction are returned. |
| `Queries.RecentPredictionsCapped` | main.py:905-907 | As intended: at most 100, at most `max(limit, 0)`, the newest first. |
| `Queries.RecentAgreesWhenPositive` | main.py:906-907 | For every positive limit the code and the intended version agree. |
| `Analytics.Store.GetRecentPredictions` | main.py:903-908 | The endpoint over the stored predictions. For every positive limit it returns the intended result: at most 100 predictions, newest first. |
| `Queries.PredictionHistory` | main.py:911-923 | As written: `total` is the stored count, `offset` is `max(0, offset)`, `limit` is `min(limit, 200)`. A non-negative limit gives the page `Window(reversed, offset, limit)`. A negative limit makes the end bound count from the end. |
| `Queries.HistoryNegativeLimitListsAllButOne` | main.py:914-917 | With `limit=-1` at offset 0 the page holds all but one prediction, and the reply reports `limit: -1`. |
| `Queries.PredictionHistoryCapped` | main.py:913-917 | As intended: the limit is clamped to 0..200, and the page is at most that long and is the window of the newest-first list. |
| `Queries.HistoryPagesAdjoin` | main.py:915-917 | Paging with the same limit loses and repeats nothing: page `offset` followed by page `offset+limit` is one page of twice the size. |
| `Queries.RecentIsFirstHistoryPage` | main.py:903-917 | For limits 1..100 the recent predictions are the first history page. |
| `Analytics.Store.GetPredictionHistory` | main.py:911-923 | The endpoint over the stored predictions. For every non-negative limit it returns the intended page. |
| `DaySeries.Day` | main.py:858-859 | The day key is the first ten characters of the timestamp, or the whole timestamp when it is shorter. |
| `DaySeries.CountKeptToxic` | main.py:861 | The per-day toxic tallies use the same verdict test as the distribution. |
| `DaySeries.StrLt` | main.py:865 | Python's `<` on strings: lexicographic by code point, with a proper prefix first. |
| `DaySeries.StrLtIrreflexive` | main.py:865 | Python's string order is irreflexive. |
| `DaySeries.StrLtTransitive` | main.py:865 | Python's string order is transitive. |
| `DaySeries.StrLtTotal` | main.py:865 | Python's string order is total on distinct strings. |
| `DaySeries.AscendingStrict` | main.py:865 | In a sorted series every date comes strictly before the later ones, so no date repeats. |
| `DaySeries.InsertByDate` | main.py:865 | Insertion adds exactly one entry. |
| `DaySeries.InsertByDateAscending` | main.py:865 | Inserting a new date into a sorted series keeps it sorted. |
| `DaySeries.SortByDate` | main.py:865 | `sorted(by_day.items())` is a permutation of the entries. |
| `DaySeries.SortByDateAscending` | main.py:865 | With distinct dates the result is sorted ascending. |
| `DaySeries.DayCountsAppend` | main.py:860-864 | One more prediction adds to its own day's total, and to its toxic count when it is toxic. |
| `DaySeries.DayCountsAbsent` | main.py:856 | A day no prediction falls on has zero counts. |
| `DaySeries.GroupedStep` | main.py:857-864 | One loop iteration keeps the grouping invariant: each seen day has a tally holding exactly its counts. |
| `DaySeries.Points` | main.py:865 | One point per day, in the order given, carrying that day's three tallies. |
| `DaySeries.SeriesOfGrouped` | main.py:865 | The sorted series built from a complete grouping is ascending, and has correct counts and every day. |
| `DaySeries.PredictionsOverTime` | main.py:853-866 | The series is strictly ascending by date. Each entry's total and toxic counts are exactly that day's predictions, with `non_toxic` the rest. Every prediction's day appears. |
| `Analytics.Store.GetPredictionsOverTime` | main.py:853-866 | The endpoint over the stored predictions. |
| `DaySeries.SeriesPartition` | main.py:856-865 | Over the whole series the totals add up to the number of predictions, and the toxic counts add up to the toxic count of the distribution. |
| `Tallies.FirstIndex` | main.py:895-898 | The position where a key is first seen. |
| `Tallies.OccurrencesOfDistinct` | main.py:865 | A key in a list without repeats occurs exactly once. |
| `Tallies.CountWhereAppend` | main.py:898 | One more element adds one to the count of its own key only. |
| `Tallies.PartitionSum` | main.py:895-898 | When every element's key is listed once, the per-key counts add up to the number of elements kept. |
| `TypeSeries.TypeKey` | main.py:897 | The key of a prediction: the stripped id, with `unknown` for a missing or blank one. |
| `TypeSeries.TypeKeyIsStrippedId` | main.py:897 | The type key is the stripped id, or `unknown` when that is empty. It is never empty and has no edge whitespace. |
| `TypeSeries.TypeKeyIgnoresEdgeSpace` | main.py:897 | Ids that differ only in edge whitespace share a key. |
| `TypeSeries.InsertByCount` | main.py:899 | Insertion adds exactly one entry. |
| `TypeSeries.SortByCount` | main.py:899 | `sorted(…, key=-count)` is a permutation of the entries. |
| `TypeSeries.Points` | main.py:899 | One point per key, in the order given, carrying that key's count. |
| `TypeSeries.InsertByCountSorted` | main.py:899 | Inserting keeps the series ordered: counts descending, and ties in first-seen order. |
| `TypeSeries.SortByCountSorted` | main.py:899 | Sorting entries given in first-seen order yields descending counts with ties in first-seen order, as Python's stable sort does. |
| `TypeSeries.CountedStep` | main.py:896-898 | One loop iteration keeps the counting invariant: the keys in first-seen order, and each count equal to the key's occurrences so far. |
| `TypeSeries.SeriesOfCounted` | main.py:899 | The sorted series of a finished count is ordered, has exact counts, and covers every key. |
| `TypeSeries.CountByKey` | main.py:895-899 | Counts by key: each entry's count is exactly its key's occurrences and is positive, every key appears, and the series is ordered by count descending with ties in first-seen order. |
| `TypeSeries.NanoparticleTypes` | main.py:892-900 | The same for the nanoparticle type key. |
| `Analytics.Store.GetNanoparticleTypes` | main.py:892-900 | The endpoint over the stored predictions. |
| `TypeSeries.SortedByCountDistinct` | main.py:899 | No type appears twice in the series. |
| `TypeSeries.TypesPartition` | main.py:895-899 | The counts of the series add up to the number of predictions. |
| `Analytics.SeedOnePrediction` | check_analytics_ready.py:75-106 | From a fresh start, one prediction logged and one successful `/predict` give `total_predictions = 1`, one success, no failure, an average equal to the one response time, and a distribution of one with `toxic = 1` exactly when the verdict is toxic. |

## Left out

- The three scoring stages of `/predict`, the model loading (`joblib`, environment variables), the key-factor formatting and `/health` are not part of this model. A prediction record is taken as given, with its verdict string and key factors.
- `Analytics.Store.LogPrediction`: `round(response_time_ms, 2)` is not modelled; the stored time is whatever the caller passes.
- `Queries.DashboardStats`: the rounding of the average to two decimals is not modelled; the contract states the exact mean.
- The SMTP sending functions are not part of this model. Their outcome is the `sent` parameter.
- Clocks: `datetime.utcnow()` and `time.time()` become the `now` and `elapsedMs` parameters.
- Flask request and JSON handling are not part of this model. Neither is the `int()` parsing of the `limit` and `offset` query arguments, where bad input raises and Flask answers 500. The defaults of 20 and 50 are the caller's choice of `limitArg`.
- `Requests.ValidateContact` and `Requests.ValidateDataset`: the body is a `map<string, string>`, with `null` and missing keys both read as `""`. A non-string JSON value, which makes `.strip()` raise so that the handler returns 500, is not modelled. Neither is the `str(text)` conversion in `sanitize_input`.
- The exception handlers returning 500, and the wording of the replies (`field.title()` and the messages), are not modelled. A `Reply` carries only the reason.
- Concurrency: requests are processed one at a time. Flask's threaded server could interleave two handlers on the shared lists.
- `Text.Upper`: only the one-character mappings that yield ASCII letters are modelled: ASCII lower case, `ı`→`I` and `ſ`→`S`. Every other character maps to itself. Python's full case mapping also turns some characters into several, which lengthens the string: `ß`→`SS`, `ﬀ`→`FF`, `ﬁ`→`FI`, `ﬂ`→`FL`, `ﬃ`→`FFI`, `ﬄ`→`FFL`, `ﬅ` and `ﬆ`→`ST`, and a few more that give a letter together with a non-ASCII mark (`ŉ`→`ʼN`, `ǰ`→`J` plus a combining caron). These length-changing mappings are left out. They cannot produce `TOXIC`: each expansion holds an `S`, `F` or `L`, or a non-ASCII character, and none of these occurs in `TOXIC`. In the model such a character stays as it is, which is not in `TOXIC` either. So `IsToxic` decides the same as Python's comparison.
- `DaySeries.PredictionsOverTime` and `TypeSeries.CountByKey`: the series is specified by its ordering, its exact per-key counts and its coverage of every key, not by equality with a dictionary value.
- What the `Get*` methods return is connected to the query functions of `Queries`, `DaySeries` and `TypeSeries`. The JSON encoding they are sent in is not modelled.

## Findings

| source | as written | input that shows it | evidently intended | confidence | as-written member | corrected member |
|---|---|---|---|---|---|---|
| main.py:906-907 | `limit = min(int(limit), 100)`, then `DASHBOARD_PREDICTIONS[-limit:]` | `limit=0` with more than 100 stored predictions: `[-0:]` is the whole list, so more than 100 are returned | at most 100 predictions, and none for a limit of 0 | not executed | `Queries.RecentZeroLimitPassesCap` | `Queries.RecentPredictionsCapped` |
| main.py:906-907 | a negative `limit` is not clamped | `limit=-1`: `[1:]` returns every prediction but the oldest | a negative limit clamped to 0 | not executed | `Queries.RecentNegativeLimitDropsOldest` | `Queries.RecentPredictionsCapped` |
| main.py:914-917 | `limit = min(int(limit), 200)` with no lower bound | `limit=-1, offset=0`: the page `[0:-1]` lists all predictions but one, and the reply echoes `limit: -1` | a limit clamped to 0..200 | not executed | `Queries.HistoryNegativeLimitListsAllButOne` | `Queries.PredictionHistoryCapped` |
