# Video analytics dashboard: a Dafny model of its core

The system counts the people in uploaded videos. A FastAPI backend keeps the processing
jobs in an in-memory table and the processed videos in a record list, and it serves an
analytics payload built from those records. A React dashboard draws the per-video
person-count timeline and formats processing times. It also decides which files may be
uploaded and where to send its requests.

This project models that core:

- **The per-video timeline** (`Dashboard.tsx`): the bucket plan, the carry-forward
  bucketizer, the axis ticks and the tick and tooltip labels.
  - The bucketizer is a method over maps.
  - It is proved equal to a per-second reference definition (`TimelineSeries.Series`,
    built on `TimelineSeries.ValueAt`).
  - The properties of the chart series are proved about that reference definition.
- **The processing-time text** (`RecentUploadsTable.tsx`, with a copy in `Dashboard.tsx`).
  It is proved to read back, through an independent parser, as the rounded total of seconds.
- **Upload acceptance on both sides.** The page's `isSupportedVideoFile` and the backend's
  `is_supported_video_upload` are modelled separately, and a lemma states the inputs on
  which they agree. Other lemmas state the inputs on which they differ.
- **The frontend's URLs** (`http.ts`, `env.ts`) and **the backend settings** (`config.py`).
- **The job table** (`JobStore.JobTable`, a class over a map).
- **The record list** (`RecordStore.Store`, a class over a sequence).
- **The analytics payload**, written as its loops (`Analytics.BuildAnalyticsPayload`), with
  every exception the code can raise on the records it reads.
- **The link to a record's processed video** (`ProcessedVideo.ResolveProcessedVideoPath`).
- **The list logic of `delete_video` and of the `get_job_status` fallback.**

How the model represents the parts it cannot compute:

- Python dicts are `Values.Fields`: maps from field names to `Values.Value`.
- These are parameters:
  - the clock, as an integer count of microseconds or as an ISO text;
  - the fresh uuid;
  - the parser of ISO time stamps, which also says whether a stamp is aware;
  - the texts `float()` accepts;
  - what the file system answers: whether a path exists, which processed file is newest, and
    whether that lookup raises;
  - the env value and `window.location` of the frontend.

`store.py` and the legacy `main.py` repeat the same job and record functions. One Dafny
member models both, and the table cites both where they differ in line numbers.

Two points of the timeline code worth knowing:

- `pickBucketSizeSeconds` gives a 9000-second video 1800-second buckets, because
  9000 > 2 * 60 * 60, and so a tick every 1800 seconds.
  `TimelinePlan.NineThousandSecondsExample` states this, and it also states the ticks
  `0, 900, ..., 9000` that 60-second buckets would give.
- The bucket map is read back by stepping through its keys `0, b, 2b, ...`, not by
  sorting its entries. The keys are proved to be exactly those starts
  (`TimelineSeries.AccumulatedUpTo`), so the result is the same.

## Model

| member | source | states |
|---|---|---|
| TimelinePlan.PickBucketSize | frontend/src/pages/Dashboard.tsx:32-46 | The bucket is never empty. The unit is seconds exactly when the bucket is under a minute, and hours exactly when it is at least an hour. Up to 48 hours the duration spans at most 600 bucket widths, which is at most 601 points. Past 10 minutes a bucket is at most a quarter of the video. |
| TimelinePlan.PickBucketSizeMonotone | frontend/src/pages/Dashboard.tsx:32-46 | A longer video never gets a narrower bucket or a finer unit. |
| TimelinePlan.TickStep | frontend/src/pages/Dashboard.tsx:53-56 | The tick step is a positive whole number of buckets, and ten steps cover the axis. |
| TimelinePlan.RegularTicks | frontend/src/pages/Dashboard.tsx:58-61 | The loop's ticks start at 0. |
| TimelinePlan.RegularTicksShape | frontend/src/pages/Dashboard.tsx:58-61 | The regular ticks start at 0 and increase strictly. Each is a multiple of the step within the axis, and the last is within one step of its end. |
| TimelinePlan.Ticks | frontend/src/pages/Dashboard.tsx:48-66 | The ticks start at 0 and end at endSecond, or at 0 for an axis ending at or below 0. |
| TimelinePlan.RegularTicksCount | frontend/src/pages/Dashboard.tsx:53-61 | There are at most eleven regular ticks. |
| TimelinePlan.TicksShape | frontend/src/pages/Dashboard.tsx:48-66 | An axis ending at or below 0 has the ticks `[0]`. Otherwise the ticks run from 0 to endSecond, strictly increasing, between 2 and 12 of them, and all but the last are multiples of the step. |
| TimelinePlan.BuildTimelineTicks | frontend/src/pages/Dashboard.tsx:48-66 | The push loop produces the ticks of the reference definition (with TicksShape: `[0]` for an empty axis, else strictly increasing from 0 to endSecond). |
| TimelinePlan.NineThousandSecondsExample | frontend/src/pages/Dashboard.tsx:32-64 | 9000 s falls in the 1800 s band and gets ticks 0, 1800, ..., 9000. With 60 s buckets the ticks would be 0, 900, ..., 9000, with no extra tick appended. |
| TimelineSeries.Ceil | frontend/src/pages/Dashboard.tsx:73 | Math.ceil: the least integer not below x. |
| TimelineSeries.MaxSecond | frontend/src/pages/Dashboard.tsx:70 | The largest observed second, or 0 with no observations: it bounds every observation and is one of them. |
| TimelineSeries.DurationSeconds | frontend/src/pages/Dashboard.tsx:69-74 | The duration covers the last observed second and the reported duration. It is the last observed second or less than one second above the reported duration. |
| TimelineSeries.EndSecond | frontend/src/pages/Dashboard.tsx:76 | The axis end is the duration, or 0 when the duration is negative. |
| TimelineSeries.EndSecondCovers | frontend/src/pages/Dashboard.tsx:69-76 | endSecond is at least every observed second and at least the reported duration. |
| TimelineSeries.CountAt | frontend/src/pages/Dashboard.tsx:79-82 | A count for a second comes from an observation at that second. No count means no observation at that second. |
| TimelineSeries.ValueAt | frontend/src/pages/Dashboard.tsx:84-94 | A second with an observation takes the count observed at it. |
| TimelineSeries.ValueAtObserved | frontend/src/pages/Dashboard.tsx:84-94 | The carried-forward value of any second is the initial value or the count of an observation at or before that second. |
| TimelineSeries.CountAtLastObservation | frontend/src/pages/Dashboard.tsx:79-82 | A second has a count exactly when it is observed, and then it is the count of its last observation (the last one wins). |
| TimelineSeries.CarryForward | frontend/src/pages/Dashboard.tsx:84-94 | After an observation, the value stays at its count until the next observed second. |
| TimelineSeries.BeforeFirstObservation | frontend/src/pages/Dashboard.tsx:84 | Before any observed second, the value is the first entry's count, or the video's total when there are no entries. |
| TimelineSeries.Values | frontend/src/pages/Dashboard.tsx:85-95 | One carried-forward value for every second of [0, endSecond]. |
| TimelineSeries.BucketStartOf | frontend/src/pages/Dashboard.tsx:90 | A second lies in the bucket that starts at a multiple of the bucket size. |
| TimelineSeries.IndexBySecond | frontend/src/pages/Dashboard.tsx:79-82 | The countBySecond map holds each observed second with the count of its last observation, and nothing else. |
| TimelineSeries.CarriedValue | frontend/src/pages/Dashboard.tsx:86-92 | `current ?? lastKnown` is the carried-forward value of the second. |
| TimelineSeries.AccumulateSecond | frontend/src/pages/Dashboard.tsx:86-94 | One pass of the loop: the value carried out of a second is that second's carried-forward value, and it is added to the accumulator of its bucket. |
| TimelineSeries.AccumulateBuckets | frontend/src/pages/Dashboard.tsx:84-95 | After the per-second loop, the keys are exactly the bucket starts on the axis. Each key holds the sum and the number of its seconds' carried-forward values. |
| TimelineSeries.AddToBucket | frontend/src/pages/Dashboard.tsx:90-94 | Adding one second's value moves the map from "seconds before s added" to "seconds up to s added". |
| TimelineSeries.AccumulatorsAfterMeaning | frontend/src/pages/Dashboard.tsx:85-95 | The map after any number of seconds has the bucket starts below that second as keys, each with its sum and count. |
| TimelineSeries.AccumulatorStep | frontend/src/pages/Dashboard.tsx:90-94 | One step of the per-second loop keeps that invariant. |
| TimelineSeries.AccumulatorKeysStep | frontend/src/pages/Dashboard.tsx:90-94 | One step adds the bucket of the new second to the keys. |
| TimelineSeries.AccumulatorValuesStep | frontend/src/pages/Dashboard.tsx:90-94 | After one step, every entry still holds its bucket's sum and count. |
| TimelineSeries.OtherBucketKept | frontend/src/pages/Dashboard.tsx:90-94 | Buckets other than the current second's are left as they are. |
| TimelineSeries.CurrentBucketGrows | frontend/src/pages/Dashboard.tsx:91-93 | The current bucket gains the second's value and one sample. |
| TimelineSeries.ReadBuckets | frontend/src/pages/Dashboard.tsx:97-103 | Reading the map in ascending key order gives floor(endSecond/b)+1 points. The k-th point is the bucket at k*b with its rounded mean and uploads 1. |
| TimelineSeries.BucketAt | frontend/src/pages/Dashboard.tsx:97-103 | Every start k*b on the axis is a key, and it yields its bucket's point. |
| TimelineSeries.ReadStep | frontend/src/pages/Dashboard.tsx:97-103 | Appending the next bucket's point extends the points read so far. |
| TimelineSeries.BucketEntry | frontend/src/pages/Dashboard.tsx:97-102 | A bucket's point sits at the bucket's start with uploads 1, and an empty bucket counts 0. |
| TimelineSeries.Series | frontend/src/pages/Dashboard.tsx:85-103 | The series has floor(endSecond/b)+1 points, and the k-th one sits at k*b with uploads 1. |
| TimelineSeries.BuildSeries | frontend/src/pages/Dashboard.tsx:78-103 | The map-based bucketizer equals the per-second reference series. |
| TimelineSeries.BuildSelectedVideoTimeline | frontend/src/pages/Dashboard.tsx:68-111 | The data is the reference series for the plan of the derived duration, and the ticks are the reference ticks. endSecond covers every observation and the reported duration. |
| TimelineSeries.SeriesShape | frontend/src/pages/Dashboard.tsx:85-103 | There are exactly floor(endSecond/b)+1 points with starts 0, b, 2b, ..., with no gaps, strictly ascending, each with uploads 1. The last start is within one bucket of endSecond. |
| TimelineSeries.StartsAscending | frontend/src/pages/Dashboard.tsx:97-98 | The starts are strictly ascending. |
| TimelineSeries.LastStart | frontend/src/pages/Dashboard.tsx:85-90 | The last bucket start is within one bucket of endSecond. |
| TimelineSeries.BucketWidths | frontend/src/pages/Dashboard.tsx:85-93 | Every bucket holds b seconds except the last, which holds endSecond - start + 1. |
| TimelineSeries.SecondInItsBucket | frontend/src/pages/Dashboard.tsx:90 | Second s is averaged into the point at index floor(s/b). |
| TimelineSeries.SumBetween | frontend/src/pages/Dashboard.tsx:91 | Bounds on each value bound the sum of n values by n times the bounds. |
| TimelineSeries.BucketMeanBetween | frontend/src/pages/Dashboard.tsx:101 | A point's count is Math.round(sum/count), halves rounded up. It lies between the least and the greatest value of its bucket. |
| TimelineSeries.SeriesPointBetween | frontend/src/pages/Dashboard.tsx:85-101 | Each series point lies between the least and the greatest carried-forward value of its bucket's seconds. |
| TimelineSeries.OneSecondBuckets | frontend/src/pages/Dashboard.tsx:85-103 | With one-second buckets, the series is the carried-forward value of every second. |
| TimelineSeries.CarryForwardExample | frontend/src/pages/Dashboard.tsx:79-103 | The observations (0,5) and (3,9), with end 5 and 1 s buckets, give 5, 5, 5, 9, 9, 9. |
| TimelineSeries.EmptyTimelineExample | frontend/src/pages/Dashboard.tsx:84-103 | No observations, person count 3 and end 2 give (0,3), (1,3), (2,3). |
| TimelineFormat.RoundsToUnique | frontend/src/pages/Dashboard.tsx:113-131 | Math.round of value/unit has one answer. |
| TimelineFormat.ShownNumber | frontend/src/pages/Dashboard.tsx:113-131 | The number shown is value/unit rounded half up, and the value itself for seconds. |
| TimelineFormat.FormatTimelineTick | frontend/src/pages/Dashboard.tsx:113-121 | The caption is a decimal number with no leading zero followed by s, m or h. The number is the value rounded to the unit, and the exact value for seconds. |
| TimelineFormat.FormatTimelineTooltip | frontend/src/pages/Dashboard.tsx:123-131 | The caption is "Second ", "Minute " or "Hour ", then the value rounded to the unit, in decimal with no leading zero. |
| TimelineFormat.TooltipAgreesWithTick | frontend/src/pages/Dashboard.tsx:113-131 | The tooltip shows the same number as the axis label. |
| TimelineFormat.FormatExamples | frontend/src/pages/Dashboard.tsx:113-131 | (125, seconds) is "125s", (125, minutes) is "2m", and the tooltip for 7200 in hours is "Hour 2". |
| ProcessingTime.RoundPositive | video_analytics/frontend/src/components/RecentUploadsTable.tsx:33 | Math.round of a positive number is within one half of it, with halves rounded up. |
| ProcessingTime.ToClock | video_analytics/frontend/src/components/RecentUploadsTable.tsx:34-36 | hours*3600 + minutes*60 + seconds is the total, and minutes and seconds are below 60. |
| ProcessingTime.ClockUnique | video_analytics/frontend/src/components/RecentUploadsTable.tsx:34-36 | That reading is the only one with minutes and seconds below 60. |
| ProcessingTime.FormatProcessingTime | video_analytics/frontend/src/components/RecentUploadsTable.tsx:28-45 | The text is "N/A" exactly when the input is absent, zero or negative. |
| ProcessingTime.ClockText | video_analytics/frontend/src/components/RecentUploadsTable.tsx:38-44 | The text always ends with a seconds part. |
| ProcessingTime.ClockTextParts | video_analytics/frontend/src/components/RecentUploadsTable.tsx:38-44 | With hours, the parts are h, m and s, zeros included. With no hours but minutes, they are m and s. Otherwise there is only s. |
| ProcessingTime.ClockTextThenParse | video_analytics/frontend/src/components/RecentUploadsTable.tsx:38-44 | Every clock text reads back as its total of seconds. |
| ProcessingTime.TotalThenParse | video_analytics/frontend/src/components/RecentUploadsTable.tsx:33-44 | The text of a whole number of seconds reads back as that number. |
| ProcessingTime.FormatThenParse | video_analytics/frontend/src/components/RecentUploadsTable.tsx:28-45 | The text of a positive duration reads back as its rounded total of seconds. |
| ProcessingTime.FormatDistinguishesTotals | video_analytics/frontend/src/components/RecentUploadsTable.tsx:28-45 | Equal texts mean equal rounded totals. |
| ProcessingTime.FormatExamples | frontend/src/pages/Dashboard.tsx:133-150 | 3600 s is "1h 0m 0s" and 125 s is "2m 5s". 0.3 s rounds to "0s", not "N/A". Nothing and 0 are "N/A". |
| ProcessingTime.ParsePartOfPart | video_analytics/frontend/src/components/RecentUploadsTable.tsx:38-44 | Each rendered part reads back as its number. |
| UploadFilter.DottedExtensionsMatch | frontend/src/pages/UploadVideo.tsx:9-23 | The page's 13 extensions are the backend's 13, without their dots (the backend list is at video_analytics/backend/app/core/config.py:26-40). |
| UploadFilter.PageExtension | frontend/src/pages/UploadVideo.tsx:26-28 | The page's extension is the lowercased text after the last dot, or "" when there is no dot. |
| UploadFilter.IsSupportedVideoFile | frontend/src/pages/UploadVideo.tsx:25-30 | A file is accepted exactly when its MIME type starts with "video/" (case-sensitive) or the lowercased text after the last dot of its name is listed. A name without a dot is judged by "", which is not listed. |
| UploadFilter.PageJudgesLastExtension | frontend/src/pages/UploadVideo.tsx:26-29 | "stem.ext" is judged by the lowercased ext only, so "a.tar.MP4" counts as "mp4". |
| UploadFilter.UpperCaseMimeDiffers | frontend/src/pages/UploadVideo.tsx:29 | "VIDEO/MP4" is refused by the page for an unlisted name, but accepted by the backend. |
| UploadFilter.Basename | video_analytics/backend/app/services/store.py:103 | os.path.basename is the text after the last "/": a suffix of the path without "/". |
| UploadFilter.SplitextExtension | video_analytics/backend/app/services/store.py:104 | splitext's extension is empty or starts at the last dot, with no other dot and no "/" in it. It is non-empty exactly when the last dot comes after the last "/" and something other than a dot stands between them. |
| UploadFilter.LeadingDotNameExtension | video_analytics/backend/app/services/store.py:104 | A name such as ".a.mp4" has the extension after its last dot (".mp4"): a leading dot does not hide a later one. |
| UploadFilter.DotRunNoExtension | video_analytics/backend/app/services/store.py:104 | A name such as "..mp4" has no extension: every dot before the last one is leading. |
| UploadFilter.IsSupportedVideoUpload | video_analytics/backend/app/services/store.py:102-106 | An upload is accepted exactly when its lowercased content type starts with "video/", or when the name after the last "/" has a last dot with a non-dot character before it and the lowercased text from that dot is listed. |
| UploadFilter.PageAcceptsDotfile | frontend/src/pages/UploadVideo.tsx:25-30 | A dotfile named after a supported extension, such as ".mp4", is accepted by the page even without a video type. |
| UploadFilter.BackendRefusesDotfile | video_analytics/backend/main.py:124-131 | A dotfile such as ".mp4" with an empty content type is refused by the backend: its name has no extension. |
| UploadFilter.LeadingDotNameDiffers | video_analytics/backend/main.py:124-131 | A dotfile such as ".mp4" is accepted by the page, but has no extension for the backend. |
| UploadFilter.LeadingDotSplitext | video_analytics/backend/app/services/store.py:104 | splitext finds no extension in a dot followed by a dot-free name. |
| UploadFilter.PlainNameDottedExtension | video_analytics/backend/app/services/store.py:103-104 | For a plain name not starting with a dot, the backend's extension is a dot and the text after the last dot. |
| UploadFilter.PlainNameNoExtension | video_analytics/backend/app/services/store.py:104 | A plain name without a dot has no extension. |
| UploadFilter.PageAndBackendAgree | video_analytics/backend/main.py:124-131 | For a plain name not starting with a dot and a lowercase type, the page and the backend decide alike. |
| UploadFilter.ExtensionsAgree | video_analytics/backend/app/services/store.py:102-106 | On such names, the page lists the extension exactly when the backend does. |
| ApiUrl.SlashPathIsRelative | video_analytics/frontend/src/lib/http.ts:4-6 | A path starting with "/" is never taken for an absolute http(s) URL. |
| ApiUrl.NormalizeEndpoint | video_analytics/frontend/src/lib/http.ts:8 | The result starts with "/", ends with the endpoint and is at most one longer. It is the endpoint itself exactly when that already starts with "/". |
| ApiUrl.NormalizeEndpointIdempotent | video_analytics/frontend/src/lib/http.ts:8 | Normalising twice is normalising once: the slash is never doubled. |
| ApiUrl.BuildApiUrl | video_analytics/frontend/src/lib/http.ts:3-16 | An absolute http(s) endpoint in any case is returned as it is. Otherwise the URL is the base followed by the normalised endpoint. The URL always ends with the endpoint. |
| ApiUrl.LeadingSlashOptional | video_analytics/frontend/src/lib/http.ts:8-15 | "videos" and "/videos" give the same URL. |
| ApiUrl.RelativeEndpointJoin | video_analytics/frontend/src/lib/http.ts:3-15 | A relative endpoint is joined to the base with exactly one "/". |
| ApiUrl.ToBackendAssetUrl | video_analytics/frontend/src/lib/http.ts:48-62 | An empty or absolute http(s) path is returned unchanged, and so is a path with a relative base and no window. Only the new URL branches give no answer. |
| ApiUrl.TrimTrailingSlash | video_analytics/frontend/src/config/env.ts:1-6 | A value longer than one character that ends in "/" loses exactly that character. Any other value, "/" and "" included, is unchanged. |
| ApiUrl.TrimTrailingSlashRemovesSingle | video_analytics/frontend/src/config/env.ts:2-3 | Without a doubled trailing slash, the result does not end in "/" unless it is "/". |
| ApiUrl.TrimTrailingSlashNotIdempotent | video_analytics/frontend/src/config/env.ts:3 | "http://x//" becomes "http://x/", and trimming again gives "http://x". |
| ApiUrl.InferApiBaseUrl | video_analytics/frontend/src/config/env.ts:8-13 | The base is "http://localhost:8000" with no window, else exactly the page's protocol, "//", its host name and ":8000". |
| ApiUrl.GetApiBaseUrl | video_analytics/frontend/src/config/env.ts:15-18 | The base is never empty. A configured value that is not blank is used stripped, with at most one trailing "/" removed. Otherwise the inferred base is used. |
| ApiUrl.GetApiBaseUrlSource | video_analytics/frontend/src/config/env.ts:15-18 | A configured value that is not blank is used stripped, and the inferred base otherwise. Either way it passes through trimTrailingSlash. |
| ApiUrl.DefaultApiBase | video_analytics/frontend/src/config/env.ts:8-18 | Unconfigured and outside a browser, the base is http://localhost:8000. |
| ApiUrl.DefaultRequestUrl | video_analytics/frontend/src/lib/http.ts:3-15 | There, a request for "videos" goes to http://localhost:8000/videos. |
| Config.StrippedOrigins | video_analytics/backend/app/core/config.py:17 | Each origin kept is non-empty and has no surrounding whitespace, and no more are kept than there are pieces. |
| Config.StrippedOriginsOne | video_analytics/backend/app/core/config.py:17 | One piece gives its strip, or nothing when the strip is empty. |
| Config.StrippedOriginsAppend | video_analytics/backend/app/core/config.py:17 | The pieces are judged one at a time and in order: the origins of p + q are those of p followed by those of q. |
| Config.ParseOrigins | video_analytics/backend/app/core/config.py:16-18 | The list is never empty. Every origin is non-empty and has no surrounding whitespace. |
| Config.OriginsFromSetting | video_analytics/backend/app/core/config.py:17 | Each origin holds no comma and only characters of the setting. |
| Config.StrippedOriginsFromPieces | video_analytics/backend/app/core/config.py:17 | Each kept origin is drawn from its piece's characters. |
| Config.StripKeepsChars | video_analytics/backend/app/core/config.py:17 | Stripping keeps only characters of the piece. |
| Config.ParseOriginsOfJoin | video_analytics/backend/app/core/config.py:16-18 | Clean origins joined with commas parse back to the same list, in order. |
| Config.CleanOriginsKept | video_analytics/backend/app/core/config.py:17 | Stripping and filtering leave clean origins as they are. |
| Config.TwoOrigins | video_analytics/backend/app/core/config.py:17 | "a, b" gives the two stripped origins, in order. |
| Config.SpacedOriginsExample | video_analytics/backend/app/core/config.py:16-18 | " a ,, b ," gives ["a", "b"]. |
| Config.BlankOriginsAllowAll | video_analytics/backend/app/core/config.py:18 | A setting of only commas and whitespace, such as "" or " , ,", gives ["*"]. |
| Config.BlankPiecesDropped | video_analytics/backend/app/core/config.py:17 | Pieces that strip to nothing are all dropped. |
| Config.FrameStride | video_analytics/backend/app/core/config.py:24 | The stride is at least 1. It is the configured integer when that is at least 1, else 1, and 3 when unset. |
| Text.NatToString | frontend/src/pages/Dashboard.tsx:114-120 | A number's decimal text has no leading zero and reads back as the number. |
| Text.Lower | video_analytics/backend/app/services/store.py:104-105 | str.lower letter by letter. |
| Text.Strip | video_analytics/backend/app/core/config.py:17 | str.strip: the text between leading and trailing whitespace, with no whitespace left at either end (ASCII whitespace only). |
| Text.SplitPieces | video_analytics/backend/app/core/config.py:17 | str.split: no piece contains the separator, the pieces joined back give the text, and there is one piece exactly when the separator is absent. |
| Text.SplitJoin | video_analytics/backend/app/core/config.py:17 | Splitting pieces joined with a separator they do not contain gives them back. |
| Text.SplitLastPiece | frontend/src/pages/UploadVideo.tsx:26-28 | The last piece of a split is the text after the last separator. |
| Text.LastIndexOf | frontend/src/pages/UploadVideo.tsx:26-28 | The position of the last occurrence, or -1 when there is none. |
| Text.SplitFirstPiece | video_analytics/backend/app/services/store.py:183 | The first piece of a split is the text before the first separator, or all of it. |
| Values.Get | video_analytics/backend/app/services/store.py:133 | dict.get: the stored value for a present key, else the default. |
| Values.Truthy | video_analytics/backend/app/services/store.py:61 | A value is falsy exactly when it is None, False, 0, "" or {}. |
| Values.IntOf | video_analytics/backend/app/services/store.py:133 | int() returns an integer as it is and a boolean as 0 or 1. A text reads exactly when it is a non-empty run of decimal digits, and then as their value. None and dicts make it raise. |
| Values.IntOfDecimal | video_analytics/backend/app/services/store.py:133 | A count written in decimal reads back as that count. |
| Values.FirstWithId | video_analytics/backend/main.py:433 | next(...) finds the first record with the id, and nothing is found exactly when no record has it. |
| JobStore.MergeJobState | video_analytics/backend/app/services/store.py:83-88 | updated_at is the stamp, and updates overwrite same-named fields. The job's other fields are kept. A new job starts with its job_id. No other field appears. |
| JobStore.MergeJobStateStamped | video_analytics/backend/main.py:110-115 | A merged state always has a job_id and an updated_at. |
| JobStore.MergeJobStateIdempotent | video_analytics/backend/app/services/store.py:85-87 | Setting the same updates twice, with the same stamp, is setting them once. |
| JobStore.JobTable.constructor | video_analytics/backend/app/services/store.py:16 | JOBS starts empty. |
| JobStore.JobTable.SetJobState | video_analytics/backend/app/services/store.py:83-88 | Only the job's entry changes, and it becomes the merged state. The table stays valid. |
| JobStore.JobTable.GetJobState | video_analytics/backend/app/services/store.py:91-94 | The result is a copy of the job's state, or None for an unknown job or an empty state. |
| JobStore.JobTable.GetJobStateFindsStored | video_analytics/backend/main.py:118-121 | In a valid table, a job is found exactly when it is stored. |
| JobStore.JobTable.PopJobState | video_analytics/backend/app/services/store.py:97-99 | The job's entry is removed if present and nothing else changes. |
| RecordStore.DetailsOrEmpty | video_analytics/backend/app/services/store.py:61 | Truthy details are kept as they are, and falsy ones become {}. |
| RecordStore.ChooseRecordId | video_analytics/backend/app/services/store.py:50 | The given id when it is not empty, else the fresh one. Never empty. |
| RecordStore.NewRecord | video_analytics/backend/app/services/store.py:53-62 | The new record has exactly the eight fields append_video_record writes: the id, the name, status and paths as given, the count as an integer, the creation stamp, and the details or {}. |
| RecordStore.UpdateFirst | video_analytics/backend/app/services/store.py:67-80 | The list keeps its length. The first record with the id gets the updates, and every other record is unchanged. |
| RecordStore.UpdateFirstChangesOnlyFirst | video_analytics/backend/main.py:94-107 | Only the first record with the id gets the updates. Every other record, later duplicates included, is unchanged. |
| RecordStore.Store.constructor | video_analytics/backend/app/services/store.py:52 | The list starts as the loaded records. |
| RecordStore.Store.AppendVideoRecord | video_analytics/backend/app/services/store.py:49-64 | Exactly one record is added, at the end, and its id is returned: the given one or a fresh one. Also at video_analytics/backend/main.py:76-91. |
| RecordStore.Store.UpdateVideoRecord | video_analytics/backend/app/services/store.py:67-80 | The result is true exactly when a record has the id. The list becomes the one with only the first match updated. |
| Routes.RemoveAt | video_analytics/backend/main.py:447 | records.pop(i): one record shorter, with the records before i and after i in their order. |
| Routes.RemoveFirstKeepsLaterDuplicates | video_analytics/backend/main.py:433-447 | Only the first match is removed. Later records with the same id remain, and the removed record and the rest make up the old list. |
| Routes.DeleteVideo | video_analytics/backend/main.py:429-456 | An unknown id gives a 404 and changes nothing. Otherwise the first match is removed and the job with that id is dropped. |
| Routes.DetailsError | video_analytics/backend/main.py:364 | With no details the error is None. With dict details it is their "error" entry, or None. The call fails exactly when details are present and not a dict. |
| Routes.FallbackJobState | video_analytics/backend/main.py:356-366 | The state has exactly its nine fields. job_id and record_id are the id. progress is 100 exactly when the record's status is "completed", else 0. status and video_name are the record's, or "failed" and "unknown". total_person_count, error, processed_video and updated_at are the values given. |
| Routes.GetJobStatus | video_analytics/backend/main.py:347-372 | A stored non-empty job is returned as it is. With neither a job nor a record the answer is 404, and a 404 means there is no record. With a record and no job, the answer is a server error exactly when int() rejects the count, resolve_processed_video_path raises or the details are not a dict. Otherwise it is the fallback state built from the first record with the id, its count, its resolved path and its details' error. |
| Routes.FallbackProgress | video_analytics/backend/main.py:356-366 | The fallback's progress is 100 exactly when the record's status is "completed", else 0. Its job_id is the id and its status is the record's, or "failed". |
| Routes.FallbackForAppendedRecord | video_analytics/backend/main.py:348-366 | When the first record with the id is one append_video_record wrote with a text name, a text or empty output path, and dict or no details, wherever it stands in the list, the fallback succeeds, provided the lookup of its processed file does not raise (when it does, the source raises too). It carries the record's person count, name and status. |
| Analytics.Completed | video_analytics/backend/app/services/store.py:131 | The completed records: all of them, only them, from the list. |
| Analytics.CompletedAppend | video_analytics/backend/app/services/store.py:131 | Appending a record adds it to the completed ones exactly when its status is "completed". |
| Analytics.CompletedPrepend | video_analytics/backend/app/services/store.py:131 | A record in front that is not completed leaves the completed records as they are. |
| Analytics.TotalPersons | video_analytics/backend/app/services/store.py:133 | With no negative counts, the total is at least 0 and at least each record's count. |
| Analytics.TotalPersonsAppend | video_analytics/backend/app/services/store.py:133 | The total grows by the appended record's count. |
| Analytics.UnfinishedRecordIgnored | video_analytics/backend/main.py:156-158 | A record that is not completed changes neither total. |
| Analytics.CompletedRecordCounted | video_analytics/backend/main.py:156-158 | A completed record adds one video and its count to the totals. |
| Analytics.HourFloor | video_analytics/backend/app/services/store.py:149 | The start of the hour contains the stamp and is a whole hour. |
| Analytics.DetectionsOn | video_analytics/backend/app/services/store.py:139-147 | With no negative counts, today's detections lie between 0 and the total. |
| Analytics.UploadsIn | video_analytics/backend/app/services/store.py:157-163 | An hour's uploads are at most the number of completed records. |
| Analytics.DetectionsIn | video_analytics/backend/app/services/store.py:154-164 | With no negative counts, an hour's detections lie between 0 and the total. |
| Analytics.TwoDigits | video_analytics/backend/app/services/store.py:167 | The hour is written with two digits that read back as it. |
| Analytics.HourLabel | video_analytics/backend/app/services/store.py:167 | The label is two digits for the hour of the day, then ":00". |
| Analytics.HourStartsConsecutive | video_analytics/backend/app/services/store.py:151-153 | The twelve hours follow one another, oldest first, and the last contains the current time. |
| Analytics.HoursDisjoint | video_analytics/backend/app/services/store.py:151-162 | A time stamp lies in at most one of the twelve hours. |
| Analytics.HoursHitAtMostOne | video_analytics/backend/app/services/store.py:151-162 | Each record is counted in at most one hour. |
| Analytics.HoursHitNone | video_analytics/backend/app/services/store.py:157-163 | A stamp outside every hour is counted in none. |
| Analytics.UploadsOverAppend | video_analytics/backend/app/services/store.py:157-163 | A further record adds to the hourly uploads the number of hours it falls in. |
| Analytics.UploadsOverNone | video_analytics/backend/app/services/store.py:157-163 | With no completed records, every hour is empty. |
| Analytics.UploadsOverBound | video_analytics/backend/app/services/store.py:150-170 | The twelve hours together count at most all completed records. |
| Analytics.HourlyUploadsBound | video_analytics/backend/main.py:174-195 | The uploads of the hourly entries add up to at most the number of completed videos. |
| Analytics.SumUploadsStep | video_analytics/backend/app/services/store.py:163 | Summing one more entry adds its uploads. |
| Analytics.LastN | video_analytics/backend/app/services/store.py:177 | records[-n:] is the last min(n, length) records, in order. |
| Analytics.PersonCountPerVideo | video_analytics/backend/app/services/store.py:172-178 | The name and count of the last ten completed records, in stored order. |
| Analytics.UploadDate | video_analytics/backend/app/services/store.py:183 | The date is a prefix of created_at with no "T", ended by the first "T" or by the text's end. |
| Analytics.UploadDateOfStamp | video_analytics/backend/main.py:208 | "dateTtime" gives date, and a bare date is its own. |
| Analytics.UploadSummary | video_analytics/backend/app/services/store.py:182-191 | The entry has the record's id, name and status, or "", "unknown" and "completed". Its count is int() of the record's count, and 0 when that is absent. Its upload date is "" without created_at, the text before the first "T" of a text, and a dict created_at as it is. Its processed video is the one given. |
| Analytics.RecentUploadsOf | video_analytics/backend/app/services/store.py:180-192 | There are min(10, n) entries. Only the last ten records need to be summarizable. |
| Analytics.RecentUploadsNewestFirst | video_analytics/backend/app/services/store.py:180-192 | The last ten records, newest first: entry i summarizes record n-1-i with the path its processed video resolves to. |
| Analytics.RecentUploadAt | video_analytics/backend/app/services/store.py:181-190 | One entry of recent_uploads is the summary of the i-th record from the end. |
| Analytics.TodaysDetections | video_analytics/backend/app/services/store.py:139-147 | The loop sums the counts of the completed records created today, skipping unreadable stamps. |
| Analytics.HourTotals | video_analytics/backend/app/services/store.py:154-164 | The inner loop counts the uploads and sums the detections of one hour. |
| Analytics.HourlyAnalytics | video_analytics/backend/app/services/store.py:150-170 | There are exactly twelve entries, and entry i is the hour from 11 - i hours ago. |
| Analytics.RecentUploads | video_analytics/backend/app/services/store.py:180-192 | The loop over reversed(records[-10:]) produces the last ten uploads, newest first. Only those ten need to be readable. |
| Analytics.BuildAnalyticsPayload | video_analytics/backend/app/services/store.py:128-203 | The call fails with a server error exactly when a record it reads makes it raise. For a completed record that is int() of the count, fromisoformat on a created_at that is not text, float() of the processing time, or an aware stamp in the hourly comparison. For one of the last ten it is int() of the count, the "T" test on created_at, float() of the processing time, or resolve_processed_video_path. Otherwise total_videos counts the completed records and total_persons sums their counts. active_cameras is 1 exactly when there is a completed record. The payload also has today's detections, twelve hourly entries, the last ten completed counts and the last ten uploads, newest first. Also at video_analytics/backend/main.py:153-228. |
| Analytics.UnreadOldRecordIgnored | video_analytics/backend/app/services/store.py:131-192 | A record that is not completed and not among the last ten cannot make the payload fail, whatever its fields hold. |
| Analytics.AwareCompletedStampFails | video_analytics/backend/app/services/store.py:157-162 | A completed record whose created_at reads as an aware datetime makes the payload fail, wherever it stands. |
| Analytics.WallClock | video_analytics/backend/app/services/store.py:143 | The time stamps the loops compare: the wall-clock time of every text fromisoformat accepts, and nothing for the texts it rejects. |
| ProcessedVideo.StemThenExtension | video_analytics/backend/app/services/store.py:116 | The stem followed by the extension splitext finds is the whole name. |
| ProcessedVideo.OutputsPath | video_analytics/backend/app/services/store.py:125 | The link is "/outputs/" followed by a name without "/". |
| ProcessedVideo.ResolveProcessedVideoPath | video_analytics/backend/app/services/store.py:109-125 | An existing non-empty text output path links to its base name under /outputs/. A non-empty dict output path raises, and so does an integer outside the C int range (OverflowError from os.stat). When the output path is falsy or does not exist, the call resolves exactly when the video name is text and the lookup of processed files for its stem does not raise. A non-empty answer is a file directly under /outputs/. Also at video_analytics/backend/main.py:134-150. |
| ProcessedVideo.LegacyPath | video_analytics/backend/app/services/store.py:114-125 | The fallback raises exactly when the video name is not text, or its stem is non-empty and the sorted glob lookup raises (getmtime on a match that is gone). An empty base name links to "". A non-empty answer is a file directly under /outputs/. |
| ProcessedVideo.NoStemNoLink | video_analytics/backend/app/services/store.py:116-118 | A record without an existing text output path whose video name has an empty stem, such as "" or "clips/", links to "". |

## Left out

- Floating point: the values of `total_processing_time_seconds` and `processingTimeSeconds` are not modelled. Whether computing them raises is modelled (`Analytics.FloatReadable`, `Analytics.DurationReadable`). Durations enter the timeline as `real`, and `Math.round` and `Math.ceil` are taken exactly.
- I/O and concurrency are not modelled: loading and saving the JSON file, the locks, and the removal of the video files in `delete_video` (including a failing `os.remove`). The record list and the job table are in-memory fields.
- These are parameters: the clock (`datetime.utcnow`), the fresh uuid, `datetime.fromisoformat` (a function from text to an optional `Analytics.Stamp`: the wall-clock time and whether it is aware), the texts `float()` accepts, and the file system (`ProcessedVideo.FileSystem`: whether a path exists, whether an integer is an open file descriptor, and what the sorted glob lookup yields: no match, the newest match, or an exception). The two reads of the clock in `build_analytics_payload` are taken as one instant.
- ApiUrl.ToBackendAssetUrl: the two branches that resolve a path with `new URL(...)` give no answer, because URL resolution is not modelled.
- `import.meta.env` and `window.location` are parameters of the URL functions.
- Text.Lower: only ASCII letters change case. Unicode case mapping is not modelled.
- Text.Strip: removes only space, tab, line feed, carriage return, vertical tab and form feed (`Text.IsSpace`). Python's `str.strip` also removes the separators `\x1c` to `\x1f` and non-ASCII whitespace such as `\x85` and `\xa0`. JavaScript's `trim` also removes non-ASCII whitespace such as `\xa0` and `\ufeff`. An origin or an env value padded with those characters keeps them in the model.
- Values.IntOf: `int()` on text reads only plain decimal digits. Signs, surrounding whitespace and underscores are not modelled.
- Config.FrameStride: takes the setting already read as an integer. A setting that is not an integer, which makes the import fail, is not modelled.
- Values.Value holds no lists and no floats. Fields holding lists or floats are not modelled, and neither is `os.path` applied to bytes.
- Analytics.BuildAnalyticsPayload: every exception the source raises is modelled as `Err(ServerError)` (`Analytics.PayloadReadable`). Other records are never read and cannot make it fail. The counting functions it uses take records that are already known to be readable. Records in the stored list that are not dicts, and created_at values that are lists, are not modelled.
- The HTTP responses' `success` and `message` wrappers are not modelled. A 404 is modelled by its detail text only.
- The CSV report, the upload route and its polling, `jobs.py`, `count.py` and the React components are not part of this model.
