/**
 * The dashboard's analytics payload (build_analytics_payload): totals over the completed
 * records, the detections of today, the uploads and detections of each of the last twelve
 * hours, the last ten completed records' counts and the last ten uploads, newest first.
 *
 * Time stamps are integers counting microseconds from 0001-01-01T00:00 (the range of
 * Python's datetime). Reading a created_at text as a time stamp (fromisoformat), which
 * texts float() accepts, the current time (utcnow) and what the file system holds are
 * passed in. The floating-point sums of processing times are left out; whether float()
 * raises on a record's processing time is modelled.
 */
module Analytics {
  import opened Wrappers
  import opened Arith
  import opened Text
  import opened Values
  import opened ProcessedVideo

  const MicrosPerHour: nat := 3_600_000_000
  const MicrosPerDay: nat := 86_400_000_000

  /** How many records the per-video counts and the recent uploads show. */
  const RecentLimit: nat := 10

  /** How many hours the hourly analytics cover. */
  const HourCount: nat := 12

  /** r.get("status") == "completed". */
  predicate IsCompleted(record: Fields)
  {
    "status" in record && record["status"] == Str("completed")
  }

  /**
   * What datetime.fromisoformat makes of a text: the wall-clock time it names and whether
   * it carries a UTC offset (an aware datetime).
   */
  datatype Stamp = Stamp(wall: int, aware: bool)

  /**
   * The time stamps the counting loops compare: the wall-clock time of every text
   * fromisoformat accepts; None where it raises ValueError, which skips the record.
   */
  function WallClock(fromIso: string -> Option<Stamp>): (parse: string -> Option<int>)
    ensures forall s :: parse(s).Some? <==> fromIso(s).Some?
    ensures forall s :: fromIso(s).Some? ==> parse(s) == Some(fromIso(s).value.wall)
  {
    s => if fromIso(s).Some? then Some(fromIso(s).value.wall) else None
  }

  /** int(r.get("person_count", 0)) does not raise. */
  predicate CountReadable(record: Fields)
  {
    IntOf(Get(record, "person_count", Int(0))).Some?
  }

  /**
   * A completed record the counting loops can read: int() reads its person count and its
   * created_at, if any, is a text (fromisoformat raises TypeError on anything else).
   */
  predicate Readable(record: Fields)
  {
    && CountReadable(record)
    && ("created_at" in record ==> record["created_at"].Str?)
  }

  predicate AllReadable(records: seq<Fields>)
  {
    forall i :: 0 <= i < |records| ==> Readable(records[i])
  }

  /** Every stored count reads as a number of at least zero. */
  predicate NoNegativeCounts(records: seq<Fields>)
    requires AllReadable(records)
  {
    forall i :: 0 <= i < |records| ==> PersonCount(records[i]) >= 0
  }

  /** int(r.get("person_count", 0)). */
  function PersonCount(record: Fields): int
    requires CountReadable(record)
  {
    IntOf(Get(record, "person_count", Int(0))).value
  }

  /** r.get("created_at", ""). */
  function CreatedText(record: Fields): string
    requires Readable(record)
  {
    if "created_at" in record then record["created_at"].s else ""
  }

  /** The completed records, in stored order. */
  function Completed(records: seq<Fields>): (done: seq<Fields>)
    ensures |done| <= |records|
    ensures forall i :: 0 <= i < |done| ==> IsCompleted(done[i])
    ensures forall i :: 0 <= i < |done| ==> done[i] in records
    ensures forall r :: r in records && IsCompleted(r) ==> r in done
    ensures AllReadable(records) ==> AllReadable(done)
  {
    if records == [] then []
    else
      var init := Completed(records[..|records| - 1]);
      var last := records[|records| - 1];
      assert records == records[..|records| - 1] + [last];
      if IsCompleted(last) then init + [last] else init
  }

  /** sum(int(r.get("person_count", 0)) for r in records). */
  function TotalPersons(records: seq<Fields>): (total: int)
    requires AllReadable(records)
    ensures NoNegativeCounts(records) ==> total >= 0
    ensures NoNegativeCounts(records) ==> forall i :: 0 <= i < |records| ==> PersonCount(records[i]) <= total
  {
    if records == [] then 0
    else TotalPersons(records[..|records| - 1]) + PersonCount(records[|records| - 1])
  }

  /** The day a time stamp falls on, counted from 0001-01-01. */
  function Day(stamp: int): int
  {
    stamp / MicrosPerDay
  }

  /** The start of the hour a time stamp falls in (replace(minute=0, second=0, microsecond=0)). */
  function HourFloor(stamp: int): (start: int)
    ensures start <= stamp < start + MicrosPerHour
    ensures start % MicrosPerHour == 0
  {
    stamp - stamp % MicrosPerHour
  }

  /** The person count a record adds to a total when its time stamp satisfies the test. */
  function DetectionsOn(records: seq<Fields>, parse: string -> Option<int>, day: int): (detections: int)
    requires AllReadable(records)
    ensures NoNegativeCounts(records) ==> 0 <= detections <= TotalPersons(records)
  {
    if records == [] then 0
    else
      var last := records[|records| - 1];
      var stamp := parse(CreatedText(last));
      DetectionsOn(records[..|records| - 1], parse, day)
      + (if stamp.Some? && Day(stamp.value) == day then PersonCount(last) else 0)
  }

  /** A time stamp in [start, start + 1 hour). */
  predicate InHour(stamp: Option<int>, start: int)
  {
    stamp.Some? && start <= stamp.value < start + MicrosPerHour
  }

  /** How many of the records were created in the hour from start. */
  function UploadsIn(records: seq<Fields>, parse: string -> Option<int>, start: int): (n: nat)
    requires AllReadable(records)
    ensures n <= |records|
  {
    if records == [] then 0
    else
      var last := records[|records| - 1];
      UploadsIn(records[..|records| - 1], parse, start) + (if InHour(parse(CreatedText(last)), start) then 1 else 0)
  }

  /** The person counts of the records created in the hour from start. */
  function DetectionsIn(records: seq<Fields>, parse: string -> Option<int>, start: int): (detections: int)
    requires AllReadable(records)
    ensures NoNegativeCounts(records) ==> 0 <= detections <= TotalPersons(records)
  {
    if records == [] then 0
    else
      var last := records[|records| - 1];
      DetectionsIn(records[..|records| - 1], parse, start)
      + (if InHour(parse(CreatedText(last)), start) then PersonCount(last) else 0)
  }

  /** The two digits strftime("%H") writes for an hour of the day. */
  function TwoDigits(n: nat): (digits: string)
    requires n < 100
    ensures |digits| == 2 && AllDigits(digits) && DigitsValue(digits) == n
  {
    var digits := [DigitChar(n / 10), DigitChar(n % 10)];
    assert digits[..1] == [DigitChar(n / 10)];
    assert DigitsValue(digits[..1]) == DigitsValue([]) * 10 + n / 10 by {
      assert digits[..1][..0] == [];
    }
    digits
  }

  /** strftime("%H:00"): the hour of the day, two digits, then ":00". */
  function HourLabel(start: int): (caption: string)
    ensures |caption| == 5 && caption[2..] == ":00"
    ensures AllDigits(caption[..2]) && DigitsValue(caption[..2]) == (start / MicrosPerHour) % 24
  {
    var caption := TwoDigits((start / MicrosPerHour) % 24) + ":00";
    assert caption[..2] == TwoDigits((start / MicrosPerHour) % 24);
    caption
  }

  /** One entry of hourly_analytics. */
  datatype HourEntry = HourEntry(hour: string, detections: int, uploads: nat)

  /** The start of the hour that lies hoursAgo hours before the current one. */
  function HourStart(now: int, hoursAgo: nat): int
  {
    HourFloor(now) - hoursAgo * MicrosPerHour
  }

  /** The entry for the hour from start. */
  function HourEntryAt(completed: seq<Fields>, parse: string -> Option<int>, start: int): HourEntry
    requires AllReadable(completed)
  {
    HourEntry(HourLabel(start), DetectionsIn(completed, parse, start), UploadsIn(completed, parse, start))
  }

  /** One entry of person_count_per_video. */
  datatype VideoCount = VideoCount(video: Value, count: int)

  /** The last n records, or all of them when there are fewer (records[-n:]). */
  function LastN(records: seq<Fields>, n: nat): (last: seq<Fields>)
    ensures |last| == Min(n, |records|)
    ensures forall i :: 0 <= i < |last| ==> last[i] == records[|records| - |last| + i]
  {
    records[|records| - Min(n, |records|)..]
  }

  /** person_count_per_video: name and count of the last ten completed records, in stored order. */
  function PersonCountPerVideo(completed: seq<Fields>): (counts: seq<VideoCount>)
    requires AllReadable(completed)
    ensures |counts| == Min(RecentLimit, |completed|)
    ensures forall i :: 0 <= i < |counts| ==>
      var r := completed[|completed| - |counts| + i];
      counts[i] == VideoCount(Get(r, "video_name", Str("unknown")), PersonCount(r))
  {
    var last := LastN(completed, RecentLimit);
    seq(|last|, i requires 0 <= i < |last| => VideoCount(Get(last[i], "video_name", Str("unknown")), PersonCount(last[i])))
  }

  /**
   * The upload date: the text before the first "T" when there is one, else the whole
   * text (created_at.split("T")[0] if "T" in created_at else created_at).
   */
  function UploadDate(createdAt: string): (date: string)
    ensures 'T' !in date
    ensures StartsWith(createdAt, date)
    ensures date == createdAt || createdAt[|date|] == 'T'
  {
    if 'T' in createdAt then
      var date := Split(createdAt, 'T')[0];
      SplitFirstPiece(createdAt, 'T');
      date
    else createdAt
  }

  /** The date part of an ISO time stamp is its upload date, and a bare date is its own. */
  lemma UploadDateOfStamp(date: string, time: string)
    requires 'T' !in date
    ensures UploadDate(date + "T" + time) == date
    ensures UploadDate(date) == date
  {
    assert (date + "T" + time)[|date|] == 'T';
  }

  /**
   * The "T" test on created_at: a text, or a dict without the key "T" (`in` then asks for
   * a key, and the dict itself becomes the upload date). Anything else makes `in` or
   * `.split` raise.
   */
  predicate DateReadable(record: Fields)
  {
    var createdAt := Get(record, "created_at", Str(""));
    createdAt.Str? || (createdAt.Dict? && "T" !in createdAt.fields)
  }

  /**
   * The record can be listed among the recent uploads: its count and its date are read
   * and the path of its processed video resolves.
   */
  predicate Summarizable(record: Fields, resolve: Fields -> Option<string>)
  {
    CountReadable(record) && DateReadable(record) && resolve(record).Some?
  }

  /** resolve_processed_video_path over a file system, as the payload applies it. */
  function Resolver(fs: FileSystem): Fields -> Option<string>
  {
    record => ResolveProcessedVideoPath(record, fs)
  }

  /** One entry of recent_uploads. */
  datatype RecentUpload = RecentUpload(id: Value, videoName: Value, uploadDate: Value, personCount: int,
                                       status: Value, processedVideo: string)

  /** The entry for one record, given the path of its processed video. */
  function UploadSummary(record: Fields, processedVideo: string): (upload: RecentUpload)
    requires CountReadable(record) && DateReadable(record)
    ensures upload.id == if "id" in record then record["id"] else Str("")
    ensures upload.videoName == if "video_name" in record then record["video_name"] else Str("unknown")
    ensures upload.status == if "status" in record then record["status"] else Str("completed")
    ensures upload.personCount == PersonCount(record)
    ensures "person_count" !in record ==> upload.personCount == 0
    ensures "created_at" !in record ==> upload.uploadDate == Str("")
    ensures "created_at" in record && record["created_at"].Str? ==>
      upload.uploadDate == Str(UploadDate(record["created_at"].s))
    ensures "created_at" in record && record["created_at"].Dict? ==> upload.uploadDate == record["created_at"]
    ensures upload.processedVideo == processedVideo
  {
    var createdAt := Get(record, "created_at", Str(""));
    RecentUpload(Get(record, "id", Str("")), Get(record, "video_name", Str("unknown")),
                 if createdAt.Str? then Str(UploadDate(createdAt.s)) else createdAt, PersonCount(record),
                 Get(record, "status", Str("completed")), processedVideo)
  }

  /** The entry recent_uploads lists for a record, with the path its processed video resolves to. */
  function RecentEntry(record: Fields, resolve: Fields -> Option<string>): RecentUpload
    requires Summarizable(record, resolve)
  {
    UploadSummary(record, resolve(record).value)
  }

  predicate AllSummarizable(records: seq<Fields>, resolve: Fields -> Option<string>)
  {
    forall i :: 0 <= i < |records| ==> Summarizable(records[i], resolve)
  }

  /** recent_uploads: the last ten records, newest first. Only those ten are read. */
  function RecentUploadsOf(records: seq<Fields>, resolve: Fields -> Option<string>): (recent: seq<RecentUpload>)
    requires AllSummarizable(LastN(records, RecentLimit), resolve)
    ensures |recent| == Min(RecentLimit, |records|)
  {
    var last := LastN(records, RecentLimit);
    seq(|last|, i requires 0 <= i < |last| => RecentEntry(last[|last| - 1 - i], resolve))
  }

  /**
   * Entry i of recent_uploads summarizes the i-th record from the end, with the path its
   * processed video resolves to.
   */
  lemma RecentUploadsNewestFirst(records: seq<Fields>, resolve: Fields -> Option<string>)
    requires AllSummarizable(LastN(records, RecentLimit), resolve)
    ensures var recent := RecentUploadsOf(records, resolve);
      forall i :: 0 <= i < |recent| ==>
        var r := records[|records| - 1 - i];
        Summarizable(r, resolve) && recent[i] == UploadSummary(r, resolve(r).value)
  {
    forall i | 0 <= i < |RecentUploadsOf(records, resolve)| {
      RecentUploadAt(records, resolve, i);
    }
  }

  /** One entry of recent_uploads, counted from the newest record. */
  lemma RecentUploadAt(records: seq<Fields>, resolve: Fields -> Option<string>, i: nat)
    requires AllSummarizable(LastN(records, RecentLimit), resolve)
    requires i < |RecentUploadsOf(records, resolve)|
    ensures Summarizable(records[|records| - 1 - i], resolve)
    ensures RecentUploadsOf(records, resolve)[i]
      == UploadSummary(records[|records| - 1 - i], resolve(records[|records| - 1 - i]).value)
  {
    var last := LastN(records, RecentLimit);
    var j := |last| - 1 - i;
    assert last[j] == records[|records| - 1 - i];
    assert Summarizable(last[j], resolve);
    assert RecentUploadsOf(records, resolve)[i] == RecentEntry(last[j], resolve);
  }

  /** The payload, without the floating-point total of processing times. */
  datatype Payload = Payload(totalVideos: nat, totalPersons: int, activeCameras: nat, todaysDetections: int,
                             hourly: seq<HourEntry>, personCountPerVideo: seq<VideoCount>,
                             recentUploads: seq<RecentUpload>)

  /** The loop that adds up today's detections. */
  method TodaysDetections(completed: seq<Fields>, parse: string -> Option<int>, today: int) returns (total: int)
    requires AllReadable(completed)
    ensures total == DetectionsOn(completed, parse, today)
  {
    total := 0;
    for i := 0 to |completed|
      invariant total == DetectionsOn(completed[..i], parse, today)
    {
      assert completed[..i + 1][..i] == completed[..i];
      var stamp := parse(CreatedText(completed[i]));
      if stamp.Some? && Day(stamp.value) == today {
        total := total + PersonCount(completed[i]);
      }
    }
    assert completed[..|completed|] == completed;
  }

  /** The inner loop of the hourly analytics: uploads and detections in the hour from start. */
  method HourTotals(completed: seq<Fields>, parse: string -> Option<int>, start: int) returns (uploads: nat, detections: int)
    requires AllReadable(completed)
    ensures uploads == UploadsIn(completed, parse, start)
    ensures detections == DetectionsIn(completed, parse, start)
  {
    uploads, detections := 0, 0;
    for i := 0 to |completed|
      invariant uploads == UploadsIn(completed[..i], parse, start)
      invariant detections == DetectionsIn(completed[..i], parse, start)
    {
      assert completed[..i + 1][..i] == completed[..i];
      if InHour(parse(CreatedText(completed[i])), start) {
        uploads := uploads + 1;
        detections := detections + PersonCount(completed[i]);
      }
    }
    assert completed[..|completed|] == completed;
  }

  /** The outer loop: twelve entries, from eleven hours ago to the current hour. */
  method HourlyAnalytics(completed: seq<Fields>, parse: string -> Option<int>, now: int) returns (hourly: seq<HourEntry>)
    requires AllReadable(completed)
    ensures |hourly| == HourCount
    ensures forall i :: 0 <= i < HourCount ==> hourly[i] == HourEntryAt(completed, parse, EntryStart(now, i))
  {
    hourly := [];
    var hoursAgo := HourCount - 1;
    while |hourly| < HourCount
      invariant |hourly| <= HourCount
      invariant hoursAgo == HourCount - 1 - |hourly|
      invariant forall i :: 0 <= i < |hourly| ==> hourly[i] == HourEntryAt(completed, parse, EntryStart(now, i))
      decreases HourCount - |hourly|
    {
      var hourStart := HourFloor(now) - hoursAgo * MicrosPerHour;
      var uploads, detections := HourTotals(completed, parse, hourStart);
      hourly := hourly + [HourEntry(HourLabel(hourStart), detections, uploads)];
      hoursAgo := hoursAgo - 1;
    }
  }

  /** The loop over reversed(records[-10:]). */
  method RecentUploads(records: seq<Fields>, resolve: Fields -> Option<string>) returns (recent: seq<RecentUpload>)
    requires AllSummarizable(LastN(records, RecentLimit), resolve)
    ensures recent == RecentUploadsOf(records, resolve)
  {
    var last := LastN(records, RecentLimit);
    recent := [];
    var k := |last|;
    while k > 0
      invariant 0 <= k <= |last|
      invariant |recent| == |last| - k
      invariant forall i :: 0 <= i < |recent| ==>
        recent[i] == RecentEntry(last[|last| - 1 - i], resolve)
    {
      k := k - 1;
      var r := last[k];
      recent := recent + [RecentEntry(r, resolve)];
    }
  }

  /** The largest magnitude below which float() turns an int into a finite float: 2^1024 - 2^970. */
  const FloatIntBound: int :=
    179769313486231580793728971405303415079934132710037826936173778980444968292764750946649017977587207096330286416692887910946555547851940402630657488671505820681908902000708383676273854845817711531764475730270069855571366959622842914819860834936475292719074168444365510704342711559699508093042880177904174497792

  /**
   * float(v or 0) does not raise: a falsy value becomes 0; an int must round to a finite
   * float (OverflowError otherwise); a text must be one float() accepts (ValueError
   * otherwise); a non-empty dict raises TypeError.
   */
  predicate FloatReadable(v: Value, floatText: string -> bool)
  {
    match v
    case Null => true
    case Bool(_) => true
    case Int(i) => -FloatIntBound < i < FloatIntBound
    case Str(s) => s == [] || floatText(s)
    case Dict(fields) => fields == map[]
  }

  /**
   * The processing time float((r.get("details", {}) or {}).get("duration_seconds") or 0) is
   * read: falsy details count as {}, other details must be a dict (.get raises otherwise).
   */
  predicate DurationReadable(record: Fields, floatText: string -> bool)
  {
    var details := Get(record, "details", Dict(map[]));
    !Truthy(details) || (details.Dict? && FloatReadable(Get(details.fields, "duration_seconds", Null), floatText))
  }

  /**
   * created_at is a text fromisoformat reads as an aware datetime, which the hourly loop
   * compares with a naive one: TypeError.
   */
  predicate AwareStamp(record: Fields, fromIso: string -> Option<Stamp>)
  {
    "created_at" in record && record["created_at"].Str?
    && fromIso(record["created_at"].s).Some? && fromIso(record["created_at"].s).value.aware
  }

  /** Every completed record is read to the end: its count, its time stamp and its processing time. */
  predicate CompletedReadable(completed: seq<Fields>, fromIso: string -> Option<Stamp>, floatText: string -> bool)
  {
    && AllReadable(completed)
    && forall i :: 0 <= i < |completed| ==>
         DurationReadable(completed[i], floatText) && !AwareStamp(completed[i], fromIso)
  }

  /** Every one of the last ten records is read: its summary and its processing time. */
  predicate RecentReadable(last: seq<Fields>, floatText: string -> bool, resolve: Fields -> Option<string>)
  {
    && AllSummarizable(last, resolve)
    && forall i :: 0 <= i < |last| ==> DurationReadable(last[i], floatText)
  }

  /**
   * The records build_analytics_payload reads without raising: every completed record and
   * the last ten records.
   */
  predicate PayloadReadable(records: seq<Fields>, fromIso: string -> Option<Stamp>, floatText: string -> bool,
                            fs: FileSystem)
  {
    CompletedReadable(Completed(records), fromIso, floatText) && RecentReadable(LastN(records, RecentLimit), floatText, Resolver(fs))
  }

  /**
   * build_analytics_payload: the payload, or the server error the code raises when one of
   * the records it reads makes int(), fromisoformat, float(), the "T" test, the hourly
   * comparison or resolve_processed_video_path raise. Records it never reads (not
   * completed, and not among the last ten) may hold anything.
   */
  method BuildAnalyticsPayload(records: seq<Fields>, fromIso: string -> Option<Stamp>, floatText: string -> bool,
                               fs: FileSystem, now: int)
    returns (result: Result<Payload>)
    ensures result.Err? <==> !PayloadReadable(records, fromIso, floatText, fs)
    ensures result.Err? ==> result.error == ServerError
    ensures result.Ok? ==>
      var payload := result.value;
      var parse := WallClock(fromIso);
      && payload.totalVideos == |Completed(records)|
      && payload.totalPersons == TotalPersons(Completed(records))
      && payload.activeCameras == (if payload.totalVideos > 0 then 1 else 0)
      && payload.todaysDetections == DetectionsOn(Completed(records), parse, Day(now))
      && |payload.hourly| == HourCount
      && (forall i :: 0 <= i < HourCount ==>
            payload.hourly[i] == HourEntryAt(Completed(records), parse, EntryStart(now, i)))
      && payload.personCountPerVideo == PersonCountPerVideo(Completed(records))
      && payload.recentUploads == RecentUploadsOf(records, Resolver(fs))
  {
    var completed := Completed(records);
    if !CompletedReadable(completed, fromIso, floatText) || !RecentReadable(LastN(records, RecentLimit), floatText, Resolver(fs)) {
      return Err(ServerError);
    }
    var parse := WallClock(fromIso);
    var totalVideos := |completed|;
    var totalPersons := TotalPersons(completed);
    var todays := TodaysDetections(completed, parse, Day(now));
    var hourly := HourlyAnalytics(completed, parse, now);
    var recent := RecentUploads(records, Resolver(fs));
    result := Ok(Payload(totalVideos, totalPersons, if totalVideos > 0 then 1 else 0, todays, hourly,
                         PersonCountPerVideo(completed), recent));
  }

  /** A failed record outside the last ten is never read: it cannot make the payload fail. */
  lemma UnreadOldRecordIgnored(failed: Fields, recent: seq<Fields>, fromIso: string -> Option<Stamp>,
                                floatText: string -> bool, fs: FileSystem)
    requires !IsCompleted(failed) && |recent| >= RecentLimit
    requires PayloadReadable(recent, fromIso, floatText, fs)
    ensures PayloadReadable([failed] + recent, fromIso, floatText, fs)
  {
    var records := [failed] + recent;
    assert records[1..] == recent;
    assert LastN(records, RecentLimit) == LastN(recent, RecentLimit);
    CompletedPrepend(failed, recent);
  }

  /**
   * A completed record whose created_at fromisoformat reads as an aware datetime makes the
   * payload fail, wherever it stands in the list.
   */
  lemma AwareCompletedStampFails(records: seq<Fields>, fromIso: string -> Option<Stamp>, floatText: string -> bool,
                                 fs: FileSystem, i: nat)
    requires i < |records| && IsCompleted(records[i]) && AwareStamp(records[i], fromIso)
    ensures !PayloadReadable(records, fromIso, floatText, fs)
  {
    var done := Completed(records);
    assert records[i] in done;
    var j :| 0 <= j < |done| && done[j] == records[i];
  }

  /** Putting a record that is not completed in front leaves the completed records as they are. */
  lemma {:induction false} CompletedPrepend(first: Fields, records: seq<Fields>)
    requires !IsCompleted(first)
    ensures Completed([first] + records) == Completed(records)
    decreases |records|
  {
    if records == [] {
      assert [first] + records == [] + [first];
      UnfinishedRecordIgnored([], first);
    } else {
      var init := records[..|records| - 1];
      var last := records[|records| - 1];
      assert [first] + records == ([first] + init) + [last];
      assert records == init + [last];
      CompletedPrepend(first, init);
      CompletedAppend([first] + init, last);
      CompletedAppend(init, last);
    }
  }

  /** Appending a record adds it to the completed ones exactly when its status is "completed". */
  lemma {:induction false} CompletedAppend(records: seq<Fields>, record: Fields)
    ensures Completed(records + [record]) == if IsCompleted(record) then Completed(records) + [record] else Completed(records)
  {
    assert (records + [record])[..|records|] == records;
  }

  /** The total grows by the appended record's count. */
  lemma {:induction false} TotalPersonsAppend(records: seq<Fields>, record: Fields)
    requires AllReadable(records) && Readable(record)
    ensures AllReadable(records + [record])
    ensures TotalPersons(records + [record]) == TotalPersons(records) + PersonCount(record)
  {
    assert (records + [record])[..|records|] == records;
  }

  /**
   * A record that is not completed, whatever its count, changes none of the totals: the
   * number of videos, the persons, the active cameras, today's detections and the hours.
   */
  lemma UnfinishedRecordIgnored(records: seq<Fields>, record: Fields)
    requires !IsCompleted(record)
    ensures Completed(records + [record]) == Completed(records)
  {
    CompletedAppend(records, record);
  }

  /** A completed record adds one video and its count to the totals. */
  lemma CompletedRecordCounted(records: seq<Fields>, record: Fields)
    requires AllReadable(records) && Readable(record) && IsCompleted(record)
    ensures |Completed(records + [record])| == |Completed(records)| + 1
    ensures TotalPersons(Completed(records + [record])) == TotalPersons(Completed(records)) + PersonCount(record)
  {
    CompletedAppend(records, record);
    TotalPersonsAppend(Completed(records), record);
  }

  /** The start of the hour of hourly entry i, oldest first: hours_ago runs from 11 down to 0. */
  function EntryStart(now: int, i: int): int
    requires 0 <= i < HourCount
  {
    HourStart(now, HourCount - 1 - i)
  }

  /**
   * The twelve hours follow each other without gaps: each starts one hour after the one
   * before, and the last is the hour the current time falls in.
   */
  lemma HourStartsConsecutive(now: int)
    ensures forall i :: 0 < i < HourCount ==> EntryStart(now, i) == EntryStart(now, i - 1) + MicrosPerHour
    ensures EntryStart(now, HourCount - 1) <= now < EntryStart(now, HourCount - 1) + MicrosPerHour
  {
  }

  /** A time stamp lies in at most one of the hours. */
  lemma HoursDisjoint(stamp: Option<int>, now: int, i: nat, j: nat)
    requires i < HourCount && j < HourCount
    requires InHour(stamp, EntryStart(now, i)) && InHour(stamp, EntryStart(now, j))
    ensures i == j
  {
  }

  /** The uploads of the first k hourly entries. */
  function UploadsOver(completed: seq<Fields>, parse: string -> Option<int>, now: int, k: nat): nat
    requires AllReadable(completed) && k <= HourCount
  {
    if k == 0 then 0
    else UploadsOver(completed, parse, now, k - 1) + UploadsIn(completed, parse, EntryStart(now, k - 1))
  }

  /** How many of the first k hours a time stamp falls in. */
  function HoursHit(stamp: Option<int>, now: int, k: nat): nat
    requires k <= HourCount
  {
    if k == 0 then 0
    else HoursHit(stamp, now, k - 1) + (if InHour(stamp, EntryStart(now, k - 1)) then 1 else 0)
  }

  /** A time stamp outside each of the first k hours hits none of them. */
  lemma {:induction false} HoursHitNone(stamp: Option<int>, now: int, k: nat)
    requires k <= HourCount
    requires forall j :: 0 <= j < k ==> !InHour(stamp, EntryStart(now, j))
    ensures HoursHit(stamp, now, k) == 0
  {
    if k > 0 {
      HoursHitNone(stamp, now, k - 1);
    }
  }

  /** A time stamp hits at most one of the hours. */
  lemma {:induction false} HoursHitAtMostOne(stamp: Option<int>, now: int, k: nat)
    requires k <= HourCount
    ensures HoursHit(stamp, now, k) <= 1
  {
    if k > 0 {
      if InHour(stamp, EntryStart(now, k - 1)) {
        HoursHitNone(stamp, now, k - 1);
      } else {
        HoursHitAtMostOne(stamp, now, k - 1);
      }
    }
  }

  /** Appending a record adds to the hourly uploads the number of hours it falls in. */
  lemma {:induction false} UploadsOverAppend(completed: seq<Fields>, record: Fields, parse: string -> Option<int>, now: int, k: nat)
    requires AllReadable(completed) && Readable(record) && k <= HourCount
    ensures AllReadable(completed + [record])
    ensures UploadsOver(completed + [record], parse, now, k)
      == UploadsOver(completed, parse, now, k) + HoursHit(parse(CreatedText(record)), now, k)
  {
    assert (completed + [record])[..|completed|] == completed;
    if k > 0 {
      UploadsOverAppend(completed, record, parse, now, k - 1);
    }
  }

  /** With no completed records every hour is empty. */
  lemma {:induction false} UploadsOverNone(parse: string -> Option<int>, now: int, k: nat)
    requires k <= HourCount
    ensures UploadsOver([], parse, now, k) == 0
  {
    if k > 0 {
      UploadsOverNone(parse, now, k - 1);
    }
  }

  /** Each completed record is counted in at most one hour, so the hours hold at most them all. */
  lemma {:induction false} UploadsOverBound(completed: seq<Fields>, parse: string -> Option<int>, now: int)
    requires AllReadable(completed)
    ensures UploadsOver(completed, parse, now, HourCount) <= |completed|
    decreases |completed|
  {
    if completed == [] {
      UploadsOverNone(parse, now, HourCount);
    } else {
      var init := completed[..|completed| - 1];
      var last := completed[|completed| - 1];
      assert completed == init + [last];
      UploadsOverBound(init, parse, now);
      UploadsOverAppend(init, last, parse, now, HourCount);
      HoursHitAtMostOne(parse(CreatedText(last)), now, HourCount);
      assert UploadsOver(completed, parse, now, HourCount) == UploadsOver(init + [last], parse, now, HourCount);
    }
  }

  /** The sum of the uploads of hourly entries. */
  function SumUploads(hourly: seq<HourEntry>): nat
  {
    if hourly == [] then 0 else SumUploads(hourly[..|hourly| - 1]) + hourly[|hourly| - 1].uploads
  }

  /** The sum over one more entry adds that entry's uploads. */
  lemma SumUploadsStep(hourly: seq<HourEntry>, k: nat)
    requires k < |hourly|
    ensures SumUploads(hourly[..k + 1]) == SumUploads(hourly[..k]) + hourly[k].uploads
  {
    assert hourly[..k + 1][..k] == hourly[..k];
  }

  /** The uploads of the twelve hourly entries add up to at most the number of completed videos. */
  lemma {:induction false} HourlyUploadsBound(completed: seq<Fields>, parse: string -> Option<int>, now: int, hourly: seq<HourEntry>)
    requires AllReadable(completed)
    requires |hourly| == HourCount
    requires forall i :: 0 <= i < HourCount ==> hourly[i] == HourEntryAt(completed, parse, EntryStart(now, i))
    ensures SumUploads(hourly) <= |completed|
  {
    for k := 0 to HourCount
      invariant SumUploads(hourly[..k]) == UploadsOver(completed, parse, now, k)
    {
      SumUploadsStep(hourly, k);
    }
    assert hourly[..HourCount] == hourly;
    UploadsOverBound(completed, parse, now);
  }
}
