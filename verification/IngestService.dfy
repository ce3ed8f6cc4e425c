/** The ingest path: find the device, refreshing the cache when it is unknown, ensure its
    channels, build the sample and enqueue it. Parsing, fetching, channel creation and the
    clock are parameters. */
module IngestService {
  import opened Basics
  import opened AsciiText
  import opened ChannelMappings
  import opened DeviceCaching
  import opened ParserRegistry
  import opened TelemetryBuilding
  import opened ChannelEnsuring
  import opened KeyCuts
  import opened CacheUpdating
  import opened EnsureAndBuild
  import opened ExactCreation
  import opened CreationContents
  import opened PublishQueue
  import opened BufferedPublishing
  import opened Telemetry

  datatype IngestError =
    | UnsupportedDevice
    | ParseFailed
    | UpdatedFetchFailed
    | FullFetchFailed
    | DeviceNotFound
    | EnsureFailed(ensureError: EnsureError)
    | BuildFailed(buildError: BuildError)

  /** A fetch of device records: failed, or the records with the clock readings at which
      they are stored. */
  datatype Fetch = FetchFailed | Fetched(uploads: seq<Upload>)

  // ---- Looking a device up ----

  /** What others do to the cache while a device is looked up: during the first fetch, before
      the lookup and before the fallback that follow it, and the same for the full fetch. */
  datatype Gaps = Gaps(
    fetching: seq<CacheOp>,
    updated: seq<CacheOp>,
    missed: seq<CacheOp>,
    refetching: seq<CacheOp>,
    refreshed: seq<CacheOp>,
    missedAgain: seq<CacheOp>)

  const NO_GAPS: Gaps := Gaps([], [], [], [], [], [])

  /** The cache when the search ended, its outcome, and whether the key found the record. */
  datatype Found = Found(cache: CacheState, result: Result<DeviceRecord, IngestError>, byKey: bool)

  /** Lookup, then the fallback, then an error. */
  ghost function SearchIn(cs: CacheState, manufacturer: string, model: string, serial: string,
                          missed: seq<CacheOp>): Found {
    var direct := LookupIn(cs, manufacturer, model, serial);
    if direct.Some? then Found(cs, Ok(direct.value), true)
    else
      var later := ApplyAll(cs, missed);
      var only := FallbackIn(later, manufacturer, serial);
      Found(later, if only.Some? then Ok(only.value) else Err(DeviceNotFound), false)
  }

  /** refreshAndLookupDevice. */
  ghost function RefreshIn(cs: CacheState, manufacturer: string, model: string, serial: string, updated: Fetch,
                           all: Fetch, gaps: Gaps): Found {
    var asked := ApplyAll(cs, gaps.fetching);
    if updated.FetchFailed? then Found(asked, Err(UpdatedFetchFailed), false)
    else
      var cs1 := ApplyAll(UpsertAll(asked, updated.uploads), gaps.updated);
      var first := SearchIn(cs1, manufacturer, model, serial, gaps.missed);
      if first.result.Ok? then first
      else
        var askedAgain := ApplyAll(first.cache, gaps.refetching);
        if all.FetchFailed? then Found(askedAgain, Err(FullFetchFailed), false)
        else
          var cs2 := ApplyAll(UpsertAll(askedAgain, all.uploads), gaps.refreshed);
          SearchIn(cs2, manufacturer, model, serial, gaps.missedAgain)
  }

  /** The device lookup of Handle: the cache first, a refresh on a miss. */
  ghost function LocateIn(cs: CacheState, manufacturer: string, model: string, serial: string, updated: Fetch,
                          all: Fetch, gaps: Gaps): Found {
    var direct := LookupIn(cs, manufacturer, model, serial);
    if direct.Some? then Found(cs, Ok(direct.value), true)
    else RefreshIn(cs, manufacturer, model, serial, updated, all, gaps)
  }

  /** What a fetch and the gaps around it leave of the cache. */
  lemma FetchGrows(cs: CacheState, uploads: seq<Upload>, before: seq<CacheOp>, after: seq<CacheOp>)
    requires WellKeyed(cs)
    ensures var later := ApplyAll(UpsertAll(ApplyAll(cs, before), uploads), after);
            && WellKeyed(later) && WellKeyed(ApplyAll(cs, before))
            && cs.updatedAt <= ApplyAll(cs, before).updatedAt <= later.updatedAt
            && cs.byKey.Keys <= ApplyAll(cs, before).byKey.Keys <= later.byKey.Keys
  {
    hide WellKeyed, ApplyAll, UpsertAll;
    OpsGrow(cs, before);
    UploadsGrow(ApplyAll(cs, before), uploads);
    OpsGrow(UpsertAll(ApplyAll(cs, before), uploads), after);
  }

  // ---- When a device is found ----

  lemma {:induction false} UploadIsStored(cs: CacheState, uploads: seq<Upload>, i: nat)
    requires WellKeyed(cs) && i < |uploads|
    ensures OwnKey(uploads[i].record) in UpsertAll(cs, uploads).byKey
    decreases |uploads|
  {
    hide Key;
    if i < |uploads| - 1 { UploadIsStored(cs, uploads[..|uploads| - 1], i); }
  }

  /** The fetch succeeded and lists the device with this key. */
  predicate Lists(fetch: Fetch, key: string) {
    fetch.Fetched? && exists i :: 0 <= i < |fetch.uploads| && OwnKey(fetch.uploads[i].record) == key
  }

  lemma ListedIsFound(cs: CacheState, fetch: Fetch, before: seq<CacheOp>, after: seq<CacheOp>,
                      manufacturer: string, model: string, serial: string)
    requires WellKeyed(cs) && Lists(fetch, Key(manufacturer, model, serial))
    ensures LookupIn(ApplyAll(UpsertAll(ApplyAll(cs, before), fetch.uploads), after), manufacturer, model, serial).Some?
  {
    hide Key, OwnKey, ApplyAll, UpsertAll, WellKeyed;
    var i :| 0 <= i < |fetch.uploads| && OwnKey(fetch.uploads[i].record) == Key(manufacturer, model, serial);
    OpsGrow(cs, before);
    UploadIsStored(ApplyAll(cs, before), fetch.uploads, i);
    UploadsGrow(ApplyAll(cs, before), fetch.uploads);
    OpsGrow(UpsertAll(ApplyAll(cs, before), fetch.uploads), after);
  }

  /** A device whose key is cached or listed is found by that key, whatever others do in the
      gaps: at once when it is cached, after the first fetch when that lists it, and after the
      second when only that one does. So it is never reported as not found. */
  lemma ListedDeviceIsFound(cs: CacheState, manufacturer: string, model: string, serial: string, updated: Fetch,
                            all: Fetch, gaps: Gaps)
    requires WellKeyed(cs)
    ensures var found := LocateIn(cs, manufacturer, model, serial, updated, all, gaps);
            var key := Key(manufacturer, model, serial);
            && (key in cs.byKey || Lists(updated, key) ==> found.result.Ok? && found.byKey)
            && (updated.Fetched? && Lists(all, key) ==> found.result.Ok?)
            && (key in cs.byKey || Lists(updated, key) || Lists(all, key) ==> found.result != Err(DeviceNotFound))
            && (found.result == Err(DeviceNotFound) ==> updated.Fetched? && all.Fetched?)
  {
    hide Key, ApplyAll, UpsertAll, WellKeyed, FallbackIn, Lists;
    var key := Key(manufacturer, model, serial);
    if LookupIn(cs, manufacturer, model, serial).None? {
      if Lists(updated, key) {
        ListedIsFound(cs, updated, gaps.fetching, gaps.updated, manufacturer, model, serial);
        ListsFetched(updated, key);
      } else if updated.Fetched? && Lists(all, key) {
        ListsFetched(all, key);
        var cs1 := ApplyAll(UpsertAll(ApplyAll(cs, gaps.fetching), updated.uploads), gaps.updated);
        FetchGrows(cs, updated.uploads, gaps.fetching, gaps.updated);
        OpsGrow(cs1, gaps.missed);
        var first := SearchIn(cs1, manufacturer, model, serial, gaps.missed);
        ListedIsFound(first.cache, all, gaps.refetching, gaps.refreshed, manufacturer, model, serial);
      }
    }
  }

  lemma ListsFetched(fetch: Fetch, key: string)
    requires Lists(fetch, key)
    ensures fetch.Fetched?
  {
  }

  // ---- Every outcome of a search ----

  /** One cached record, and only this one, has the manufacturer and the serial, up to
      normalization. */
  ghost predicate IsOnlyMatch(cs: CacheState, manufacturer: string, serial: string, record: DeviceRecord) {
    exists key ::
      && key in cs.byKey && cs.byKey[key] == record
      && HasIdentity(record, manufacturer, serial)
      && forall other :: other in cs.byKey && HasIdentity(cs.byKey[other], manufacturer, serial) ==> other == key
  }

  predicate HasIdentity(record: DeviceRecord, manufacturer: string, serial: string) {
    && ToLower(TrimSpace(record.manufacturer)) == ToLower(TrimSpace(manufacturer))
    && TrimSpace(record.serial) == TrimSpace(serial)
  }

  ghost predicate HasOnlyMatch(cs: CacheState, manufacturer: string, serial: string) {
    exists record :: IsOnlyMatch(cs, manufacturer, serial, record)
  }

  /** The caches a search meets one after the other: at the lookup after the first fetch, at the
      fallback after it, when the second fetch has returned, and at the lookup and the fallback
      after that. */
  datatype Stages = Stages(first: CacheState, second: CacheState, third: CacheState, fourth: CacheState)

  function UploadsIn(fetch: Fetch): seq<Upload> {
    if fetch.Fetched? then fetch.uploads else []
  }

  function StagesOf(cs: CacheState, updated: Fetch, all: Fetch, gaps: Gaps): Stages {
    var first := ApplyAll(UpsertAll(ApplyAll(cs, gaps.fetching), UploadsIn(updated)), gaps.updated);
    var second := ApplyAll(first, gaps.missed);
    var third := ApplyAll(UpsertAll(ApplyAll(second, gaps.refetching), UploadsIn(all)), gaps.refreshed);
    Stages(first, second, third, ApplyAll(third, gaps.missedAgain))
  }

  /** The first fetch succeeded, and neither the lookup nor the fallback after it found one. */
  ghost predicate MissedTwice(s: Stages, key: string, manufacturer: string, serial: string, updated: Fetch) {
    updated.Fetched? && key !in s.first.byKey && !HasOnlyMatch(s.second, manufacturer, serial)
  }

  /** What a refresh and search must answer: by key, else by the only match, after the first
      fetch or else after the second; and each error in exactly its case. */
  ghost predicate SearchAnswers(s: Stages, manufacturer: string, model: string, serial: string, updated: Fetch,
                                all: Fetch, r: Result<DeviceRecord, IngestError>) {
    var key := Key(manufacturer, model, serial);
    var missed := MissedTwice(s, key, manufacturer, serial, updated);
    && (r == Err(UpdatedFetchFailed) <==> updated.FetchFailed?)
    && (r == Err(FullFetchFailed) <==> missed && all.FetchFailed?)
    && (r == Err(DeviceNotFound) <==>
        missed && all.Fetched? && key !in s.third.byKey && !HasOnlyMatch(s.fourth, manufacturer, serial))
    && (r.Err? ==> r.error in {UpdatedFetchFailed, FullFetchFailed, DeviceNotFound})
    && (updated.Fetched? && key in s.first.byKey ==> r == Ok(s.first.byKey[key]))
    && (forall record ::
          updated.Fetched? && key !in s.first.byKey && IsOnlyMatch(s.second, manufacturer, serial, record) ==>
            r == Ok(record))
    && (missed && all.Fetched? && key in s.third.byKey ==> r == Ok(s.third.byKey[key]))
    && (forall record ::
          missed && all.Fetched? && key !in s.third.byKey && IsOnlyMatch(s.fourth, manufacturer, serial, record) ==>
            r == Ok(record))
  }

  lemma FallbackIsOnlyMatch(cs: CacheState, manufacturer: string, serial: string)
    ensures FallbackIn(cs, manufacturer, serial).Some? <==> HasOnlyMatch(cs, manufacturer, serial)
    ensures forall record :: IsOnlyMatch(cs, manufacturer, serial, record) <==>
              FallbackIn(cs, manufacturer, serial) == Some(record)
  {
    hide TrimSpace, ToLower;
    var keys := MatchingKeys(cs, manufacturer, serial);
    assert forall key :: key in keys <==> key in cs.byKey && HasIdentity(cs.byKey[key], manufacturer, serial);
    forall record
      ensures IsOnlyMatch(cs, manufacturer, serial, record) <==> FallbackIn(cs, manufacturer, serial) == Some(record)
    {
      OnlyMatchIsFallback(cs, manufacturer, serial, record);
    }
    if FallbackIn(cs, manufacturer, serial).Some? {
      assert IsOnlyMatch(cs, manufacturer, serial, FallbackIn(cs, manufacturer, serial).value);
    }
  }

  lemma OnlyMatchIsFallback(cs: CacheState, manufacturer: string, serial: string, record: DeviceRecord)
    ensures IsOnlyMatch(cs, manufacturer, serial, record) <==> FallbackIn(cs, manufacturer, serial) == Some(record)
  {
    hide TrimSpace, ToLower;
    var keys := MatchingKeys(cs, manufacturer, serial);
    assert forall key :: key in keys <==> key in cs.byKey && HasIdentity(cs.byKey[key], manufacturer, serial);
    if IsOnlyMatch(cs, manufacturer, serial, record) {
      var key :|
        && key in cs.byKey && cs.byKey[key] == record && HasIdentity(record, manufacturer, serial)
        && forall other :: other in cs.byKey && HasIdentity(cs.byKey[other], manufacturer, serial) ==> other == key;
      assert keys == {key};
    }
    if FallbackIn(cs, manufacturer, serial) == Some(record) {
      var key :| keys == {key};
      assert key in keys;
      assert forall other :: other in keys ==> other == key;
    }
  }

  /** The search of the specification answers so. */
  lemma RefreshAnswers(cs: CacheState, manufacturer: string, model: string, serial: string, updated: Fetch, all: Fetch,
                       gaps: Gaps)
    ensures SearchAnswers(StagesOf(cs, updated, all, gaps), manufacturer, model, serial, updated, all,
                          RefreshIn(cs, manufacturer, model, serial, updated, all, gaps).result)
  {
    hide Key, ApplyAll, UpsertAll, FallbackIn, IsOnlyMatch, HasOnlyMatch;
    var s := StagesOf(cs, updated, all, gaps);
    FallbackIsOnlyMatch(s.second, manufacturer, serial);
    FallbackIsOnlyMatch(s.fourth, manufacturer, serial);
  }

  // ---- What was found ----

  /** A record is what the request asked for: it is in the cache under its own key, and its
      manufacturer and serial agree with the request's. */
  ghost predicate Answers(cs: CacheState, manufacturer: string, serial: string, record: DeviceRecord) {
    && OwnKey(record) in cs.byKey && cs.byKey[OwnKey(record)] == record
    && MatchesDevice(record, manufacturer, serial)
  }

  /** A record found by key is the device asked for exactly when request and record have as
      many bars in the manufacturer and in the model. */
  lemma LookupAnswersIff(cs: CacheState, manufacturer: string, model: string, serial: string, record: DeviceRecord)
    requires WellKeyed(cs) && LookupIn(cs, manufacturer, model, serial) == Some(record)
    ensures MatchesDevice(record, manufacturer, serial) <==>
              Bars(manufacturer) == Bars(record.manufacturer) && Bars(model) == Bars(record.model)
  {
    if Bars(manufacturer) == Bars(record.manufacturer) && Bars(model) == Bars(record.model) {
      KeyInjective(manufacturer, model, serial, record.manufacturer, record.model, record.serial);
    }
    if MatchesDevice(record, manufacturer, serial) {
      KeyTellsSerialIff(manufacturer, model, serial, record.manufacturer, record.model, record.serial);
      var m, t := Normalize(manufacturer), TrimSpace(serial);
      SameSuffix(m + SEPARATOR + Normalize(model), m + SEPARATOR + Normalize(record.model), t);
      NormalizeKeepsBars(manufacturer);
      NormalizeKeepsBars(record.manufacturer);
    }
  }

  /** The outcome of a search is grounded in the cache it ended with. */
  ghost predicate Grounded(before: CacheState, found: Found, manufacturer: string, model: string, serial: string) {
    && WellKeyed(found.cache)
    && before.updatedAt <= found.cache.updatedAt && before.byKey.Keys <= found.cache.byKey.Keys
    && (found.result.Ok? && found.byKey ==>
          LookupIn(found.cache, manufacturer, model, serial) == Some(found.result.value))
    && (found.result.Ok? && !found.byKey ==>
          FallbackIn(found.cache, manufacturer, serial) == Some(found.result.value))
  }

  lemma SearchIsGrounded(before: CacheState, cs: CacheState, manufacturer: string, model: string, serial: string,
                         missed: seq<CacheOp>)
    requires WellKeyed(cs) && before.updatedAt <= cs.updatedAt && before.byKey.Keys <= cs.byKey.Keys
    ensures Grounded(before, SearchIn(cs, manufacturer, model, serial, missed), manufacturer, model, serial)
  {
    OpsGrow(cs, missed);
  }

  lemma LocatedIsGrounded(cs: CacheState, manufacturer: string, model: string, serial: string, updated: Fetch,
                          all: Fetch, gaps: Gaps)
    requires WellKeyed(cs)
    ensures Grounded(cs, LocateIn(cs, manufacturer, model, serial, updated, all, gaps), manufacturer, model, serial)
  {
    hide WellKeyed, ApplyAll, UpsertAll, LookupIn, FallbackIn, SearchIn;
    if LookupIn(cs, manufacturer, model, serial).None? {
      FetchGrows(cs, [], gaps.fetching, []);
      if updated.Fetched? {
        FetchGrows(cs, updated.uploads, gaps.fetching, gaps.updated);
        var cs1 := ApplyAll(UpsertAll(ApplyAll(cs, gaps.fetching), updated.uploads), gaps.updated);
        SearchIsGrounded(cs, cs1, manufacturer, model, serial, gaps.missed);
        var first := SearchIn(cs1, manufacturer, model, serial, gaps.missed);
        FetchGrows(first.cache, [], gaps.refetching, []);
        if all.Fetched? {
          FetchGrows(first.cache, all.uploads, gaps.refetching, gaps.refreshed);
          var cs2 := ApplyAll(UpsertAll(ApplyAll(first.cache, gaps.refetching), all.uploads), gaps.refreshed);
          SearchIsGrounded(cs, cs2, manufacturer, model, serial, gaps.missedAgain);
        }
      }
    }
  }

  /** A record found by key for a supported request whose serial cannot be cut has no bars. */
  lemma UncutHasNoBars(cs: CacheState, manufacturer: string, model: string, serial: string, record: DeviceRecord)
    requires WellKeyed(cs) && LookupIn(cs, manufacturer, model, serial) == Some(record)
    requires Supported(manufacturer, model) && !HasSerialCut(serial)
    ensures PairBars(record) == 0 && Unrivalled(manufacturer, model, serial)
  {
    hide Key, Bars, Supported, HasSerialCut, HasModelCut, IsRival, TrimSpace;
    SupportedHasNoBars(manufacturer, model);
    RivalIffCut(manufacturer, model, serial);
    NoBarNoModelCut(model);
    LookedUpKey(cs, manufacturer, model, serial, record);
    LookedUpNamesKey(cs, manufacturer, model, serial, record);
    NamesOwnKeyIff(record, manufacturer, model, serial);
  }

  /** Whatever lookup returns for a supported request, refreshed or not, by key or by fallback
      and whatever others do meanwhile, is in the resulting cache under its own key; it is the
      device asked for exactly when the fallback found it or it has no bar in manufacturer and
      model, and always when the serial cannot be cut at a bar. */
  lemma LocatedIsTheDevice(cs: CacheState, manufacturer: string, model: string, serial: string, updated: Fetch,
                           all: Fetch, gaps: Gaps)
    requires WellKeyed(cs) && Supported(manufacturer, model)
    ensures var found := LocateIn(cs, manufacturer, model, serial, updated, all, gaps);
            && WellKeyed(found.cache)
            && cs.updatedAt <= found.cache.updatedAt && cs.byKey.Keys <= found.cache.byKey.Keys
            && (found.result.Ok? ==>
                  var record := found.result.value;
                  && OwnKey(record) in found.cache.byKey && found.cache.byKey[OwnKey(record)] == record
                  && (Answers(found.cache, manufacturer, serial, record) <==>
                      !found.byKey || PairBars(record) == 0)
                  && (!HasSerialCut(serial) ==> Answers(found.cache, manufacturer, serial, record)))
  {
    hide Key, Bars, LocateIn, Supported, HasSerialCut;
    var found := LocateIn(cs, manufacturer, model, serial, updated, all, gaps);
    LocatedIsGrounded(cs, manufacturer, model, serial, updated, all, gaps);
    SupportedHasNoBars(manufacturer, model);
    if found.result.Ok? {
      if found.byKey {
        LookupAnswersIff(found.cache, manufacturer, model, serial, found.result.value);
        if !HasSerialCut(serial) {
          UncutHasNoBars(found.cache, manufacturer, model, serial, found.result.value);
        }
      } else {
        FallbackFindsTheOne(found.cache, manufacturer, serial);
      }
    }
  }

  /** A device was found, and if it was found by key under a serial that can be cut, it has no
      bars: no other device answered in its place. */
  predicate NotMisled(found: Found, serial: string) {
    found.result.Ok? && (found.byKey && HasSerialCut(serial) ==> PairBars(found.result.value) == 0)
  }

  /** The record in hand names, with the upload's serial, the entry it was found in. */
  lemma LocatedNamesItsEntry(cs: CacheState, manufacturer: string, model: string, serial: string, updated: Fetch,
                             all: Fetch, gaps: Gaps)
    requires WellKeyed(cs) && Supported(manufacturer, model)
    requires NotMisled(LocateIn(cs, manufacturer, model, serial, updated, all, gaps), serial)
    ensures var found := LocateIn(cs, manufacturer, model, serial, updated, all, gaps);
            var record := found.result.value;
            var key := Key(record.manufacturer, record.model, serial);
            WellKeyed(found.cache) && key in found.cache.byKey && found.cache.byKey[key] == record
  {
    hide Key, Bars, LocateIn, Supported, HasSerialCut;
    var found := LocateIn(cs, manufacturer, model, serial, updated, all, gaps);
    LocatedIsGrounded(cs, manufacturer, model, serial, updated, all, gaps);
    SupportedHasNoBars(manufacturer, model);
    if found.byKey && !HasSerialCut(serial) {
      UncutHasNoBars(found.cache, manufacturer, model, serial, found.result.value);
    }
    FoundNamesCachedKey(found.cache, manufacturer, model, serial, found.result.value);
  }

  /** No serial that can be cut, and no model either for a record the fallback found. */
  predicate Uncut(found: Found, serial: string)
    requires found.result.Ok?
  {
    !HasSerialCut(serial) && (found.byKey || !HasModelCut(found.result.value.model))
  }

  lemma FallbackIsUnrivalled(cs: CacheState, manufacturer: string, model: string, serial: string,
                             record: DeviceRecord)
    requires WellKeyed(cs) && Supported(manufacturer, model)
    requires FallbackIn(cs, manufacturer, serial) == Some(record)
    requires !HasSerialCut(serial) && !HasModelCut(record.model)
    ensures Unrivalled(record.manufacturer, record.model, serial)
  {
    hide Key, Supported, HasSerialCut, HasModelCut, IsRival, TrimSpace;
    SupportedHasNoBars(manufacturer, model);
    FallbackFindsTheOne(cs, manufacturer, serial);
    NormalizeKeepsBars(manufacturer);
    NormalizeKeepsBars(record.manufacturer);
    RivalIffCut(record.manufacturer, record.model, serial);
  }

  /** Once a supported request has found its device, the cache update of its creations cannot
      fail: whatever others upload and upsert, if the serial cannot be cut at a bar and the
      model of a record the fallback found cannot either; and otherwise while no other device
      answered and records uploaded under its key keep its bars. */
  lemma LocatedUpdateCannotFail(cs: CacheState, manufacturer: string, model: string, serial: string, updated: Fetch,
                                all: Fetch, gaps: Gaps, ms: seq<Measurement>, answers: seq<Answer>,
                                between: seq<seq<CacheOp>>)
    requires |answers| == |between| == |ms| && WellKeyed(cs) && Supported(manufacturer, model)
    requires var found := LocateIn(cs, manufacturer, model, serial, updated, all, gaps);
             found.result.Ok? &&
             var record := found.result.value;
             || Uncut(found, serial)
             || (NotMisled(found, serial)
                 && AllHaveBars(between, Key(record.manufacturer, record.model, serial), PairBars(record)))
    ensures var found := LocateIn(cs, manufacturer, model, serial, updated, all, gaps);
            Ensure(found.cache, found.result.value, ms, serial, answers, between).result != Err(CacheUpdateFailed)
  {
    hide Key, LocateIn, Supported, AllHaveBars, HasSerialCut, HasModelCut, Ensure, Bars, IsRival, WellKeyed, LookupIn,
      FallbackIn, TrimSpace;
    var found := LocateIn(cs, manufacturer, model, serial, updated, all, gaps);
    var record := found.result.value;
    LocatedIsGrounded(cs, manufacturer, model, serial, updated, all, gaps);
    if !Uncut(found, serial) {
      LocatedNamesItsEntry(cs, manufacturer, model, serial, updated, all, gaps);
      CacheUpdateCannotFail(found.cache, record, ms, serial, answers, between);
    } else if found.byKey {
      UncutHasNoBars(found.cache, manufacturer, model, serial, record);
      LookedUpNamesKey(found.cache, manufacturer, model, serial, record);
      UnrivalledCannotFail(found.cache, record, ms, manufacturer, model, serial, answers, between);
    } else {
      FallbackIsUnrivalled(found.cache, manufacturer, model, serial, record);
      LocatedNamesItsEntry(cs, manufacturer, model, serial, updated, all, gaps);
      UnrivalledCannotFail(found.cache, record, ms, record.manufacturer, record.model, serial, answers, between);
    }
  }

  /** For a supported request whose device was found by key, the first granted creation fails
      in the cache if and only if that device has a bar and the key of its manufacturer and
      model with the upload's serial is not cached by then. */
  lemma LocatedFirstUpdateFailsIff(cs: CacheState, manufacturer: string, model: string, serial: string,
                                   updated: Fetch, all: Fetch, gaps: Gaps, ms: seq<Measurement>, answers: seq<Answer>,
                                   between: seq<seq<CacheOp>>)
    requires |answers| == |between| == |ms| && WellKeyed(cs) && Supported(manufacturer, model)
    requires var found := LocateIn(cs, manufacturer, model, serial, updated, all, gaps);
             && found.result.Ok? && found.byKey
             && FirstMissing(found.result.value, ms) < |ms|
             && answers[FirstMissing(found.result.value, ms)].Created?
    ensures var found := LocateIn(cs, manufacturer, model, serial, updated, all, gaps);
            var record := found.result.value;
            var e := Ensure(found.cache, record, ms, serial, answers, between);
            var now := CacheThrough(found.cache, between[..FirstMissing(record, ms) + 1]);
            e.result == Err(CacheUpdateFailed) && |e.requests| == 1 <==>
              PairBars(record) > 0 && Key(record.manufacturer, record.model, serial) !in now.byKey
  {
    hide Key, Bars, PairBars, LocateIn, Supported, Ensure, CacheThrough, FirstMissing, LookupIn, WellKeyed, RequestFor,
      MappingOf, PutChannel, OwnKey;
    var found := LocateIn(cs, manufacturer, model, serial, updated, all, gaps);
    LocatedIsGrounded(cs, manufacturer, model, serial, updated, all, gaps);
    SupportedHasNoBars(manufacturer, model);
    FirstCreation(found.cache, manufacturer, model, serial, found.result.value, ms, answers, between);
  }

  // ---- Handling an upload ----

  datatype Handled = Handled(cache: CacheState, result: Result<DeploymentSamples, IngestError>)

  /** Handle after parsing, with others at work on the cache in its gaps. */
  ghost function HandleIn(cs: CacheState, manufacturer: string, model: string, parsed: ParseResult, updated: Fetch,
                          all: Fetch, answers: seq<Answer>, gaps: Gaps, between: seq<seq<CacheOp>>): Handled
    requires |answers| == |between| == |parsed.measurements|
  {
    var found := LocateIn(cs, manufacturer, model, parsed.serial, updated, all, gaps);
    if found.result.Err? then Handled(found.cache, Err(found.result.error))
    else
      var ensured := Ensure(found.cache, found.result.value, parsed.measurements, parsed.serial, answers, between);
      if ensured.result.Err? then Handled(ensured.cache, Err(EnsureFailed(ensured.result.error)))
      else
        var built := Built(ensured.result.value, parsed);
        Handled(ensured.cache, if built.Ok? then Ok(built.value) else Err(BuildFailed(built.error)))
  }

  /** End to end: once a supported request's device is located, not misled by bars, an upload
      without blank names can only fail because the server refused to create a channel the
      record lacks; if it refuses none, a sample is built. Others may work on the cache all
      the while, short of refreshing the device or creating the very channels this upload
      lacks during its creation loop. */
  lemma LocatedUploadSucceedsUnlessRefused(cs: CacheState, manufacturer: string, model: string, parsed: ParseResult,
                                           updated: Fetch, all: Fetch, answers: seq<Answer>, gaps: Gaps,
                                           between: seq<seq<CacheOp>>)
    requires |answers| == |between| == |parsed.measurements| && Echoes(answers, parsed.measurements)
    requires forall i :: 0 <= i < |parsed.measurements| ==> !Blank(parsed.measurements[i])
    requires WellKeyed(cs) && Supported(manufacturer, model)
    requires var found := LocateIn(cs, manufacturer, model, parsed.serial, updated, all, gaps);
             && NotMisled(found, parsed.serial)
             && var key := Key(found.result.value.manufacturer, found.result.value.model, parsed.serial);
             && NeverRefreshed(between, key)
             && AllSpare(between, key, Lacked(found.result.value, parsed.measurements))
    ensures var record := LocateIn(cs, manufacturer, model, parsed.serial, updated, all, gaps).result.value;
            HandleIn(cs, manufacturer, model, parsed, updated, all, answers, gaps, between).result.Ok? <==>
              Granted(record, [], parsed.measurements, answers)
  {
    hide Key, Tracks, Echoes, LocateIn, Ensure, Built, Supported, WellKeyed, NeverRefreshed, AllSpare, Granted, Blank,
      RefreshesKeepTags, Holds, Lacked, Tags, HasSerialCut;
    var found := LocateIn(cs, manufacturer, model, parsed.serial, updated, all, gaps);
    var record := found.result.value;
    var key := Key(record.manufacturer, record.model, parsed.serial);
    LocatedNamesItsEntry(cs, manufacturer, model, parsed.serial, updated, all, gaps);
    CachedIsTracked(found.cache, key, record, parsed.measurements);
    CreatesExactlyTheMissing(found.cache, record, parsed.measurements, parsed.serial, answers, between);
    NeverRefreshedKeepsTags(found.cache, record, parsed.measurements, parsed.serial, answers, between);
    EnsureThenBuild(found.cache, record, parsed, answers, between);
  }

  lemma CachedIsTracked(cs: CacheState, key: string, record: DeviceRecord, ms: seq<Measurement>)
    requires key in cs.byKey && cs.byKey[key] == record
    ensures Tracks(cs, key, record) && Lacked(record, ms) !! Tags(cs.byKey[key])
  {
  }

  /** With refreshes of the device as well, as long as each keeps its tags, a refused creation
      is still the only way such an upload can fail. */
  lemma OnlyRefusalFailsALocatedUpload(cs: CacheState, manufacturer: string, model: string, parsed: ParseResult,
                                       updated: Fetch, all: Fetch, answers: seq<Answer>, gaps: Gaps,
                                       between: seq<seq<CacheOp>>)
    requires |answers| == |between| == |parsed.measurements| && Echoes(answers, parsed.measurements)
    requires forall i :: 0 <= i < |parsed.measurements| ==> !Blank(parsed.measurements[i])
    requires WellKeyed(cs) && Supported(manufacturer, model)
    requires var found := LocateIn(cs, manufacturer, model, parsed.serial, updated, all, gaps);
             && NotMisled(found, parsed.serial)
             && RefreshesKeepTags(found.cache, found.result.value, parsed.measurements, parsed.serial, answers, between)
    ensures var r := HandleIn(cs, manufacturer, model, parsed, updated, all, answers, gaps, between).result;
            r.Err? ==> r.error.EnsureFailed? && r.error.ensureError.CreateFailed?
  {
    hide Key, LocateIn, Ensure, Built, Supported, WellKeyed, RefreshesKeepTags, HasSerialCut;
    var found := LocateIn(cs, manufacturer, model, parsed.serial, updated, all, gaps);
    LocatedNamesItsEntry(cs, manufacturer, model, parsed.serial, updated, all, gaps);
    EnsureCovers(found.cache, found.result.value, parsed.measurements, parsed.serial, answers, between);
    EnsureThenBuild(found.cache, found.result.value, parsed, answers, between);
  }

  /** What bars can do to an upload the registry admits: a granted creation ends in an error,
      or, with a second device cached, the sample is sent under that device's deployment. */
  lemma BarsMisleadAnUpload(channelID: UInt64)
    ensures var parsed := ParseResult("x|d", 0, [Measurement(1, "t", "", 0)], None, None);
            var one := UpsertOne(EMPTY_CACHE, BARRED_DEVICE, 0);
            var two := UpsertOne(one, NAMESAKE, 0);
            var answers := [Created(channelID, "t")];
            var none := FetchFailed;
            var failed := HandleIn(one, "comet", "uxxxxm", parsed, none, none, answers, NO_GAPS, UNDISTURBED).result;
            var misled := HandleIn(two, "comet", "uxxxxm", parsed, none, none, answers, NO_GAPS, UNDISTURBED).result;
            && Supported("comet", "uxxxxm")
            && failed == Err(EnsureFailed(CacheUpdateFailed))
            && LookupIn(two, "comet", "uxxxxm", parsed.serial) == Some(BARRED_DEVICE)
            && misled.Ok? && misled.value.deploymentID == NAMESAKE.deploymentID != BARRED_DEVICE.deploymentID
  {
    hide Key, Supported, RefreshIn, Ensure, Built, LookupIn, UpsertOne;
    BarsReachCacheUpdateFailure(Created(channelID, "t"));
    BarsReachOtherDevice(channelID);
  }

  // ---- Every outcome of an upload ----

  /** How an upload ends once its device has been searched for: with the search's error, with a
      refused creation or a missing cache entry, with the first name that does not resolve, or
      with a sample that carries the upload under the ids of the record the creations ended in. */
  lemma HandleOutcome(cs: CacheState, manufacturer: string, model: string, parsed: ParseResult, updated: Fetch,
                      all: Fetch, answers: seq<Answer>, gaps: Gaps, between: seq<seq<CacheOp>>)
    requires |answers| == |between| == |parsed.measurements|
    ensures var r := HandleIn(cs, manufacturer, model, parsed, updated, all, answers, gaps, between).result;
            var found := LocateIn(cs, manufacturer, model, parsed.serial, updated, all, gaps);
            && (found.result.Err? ==> r == Err(found.result.error))
            && (found.result.Ok? ==>
                  var ms := parsed.measurements;
                  var ensured := Ensure(found.cache, found.result.value, ms, parsed.serial, answers, between).result;
                  && (ensured.Err? ==> r == Err(EnsureFailed(ensured.error)))
                  && (ensured.Ok? ==>
                        && (r.Ok? <==>
                            forall i :: 0 <= i < |ms| ==> Resolve(ensured.value.channels, ms[i].name).Some?)
                        && (r.Ok? ==> Carries(r.value, ensured.value, parsed))
                        && (r.Err? ==>
                              r.error.BuildFailed? && NamesFirstUnresolved(r.error.buildError, ensured.value, parsed))))
  {
    hide LocateIn, Ensure, Built, Resolve, Carries, NamesFirstUnresolved;
    var found := LocateIn(cs, manufacturer, model, parsed.serial, updated, all, gaps);
    if found.result.Ok? {
      var ms := parsed.measurements;
      var ensured := Ensure(found.cache, found.result.value, ms, parsed.serial, answers, between).result;
      if ensured.Ok? {
        BuiltCarries(ensured.value, parsed);
        BuiltIff(ensured.value, parsed);
      }
    }
  }

  /** Without a refresh of the device during its creations, the sample goes out under the ids of
      the device that was found. */
  lemma HandledUnderFoundIds(cs: CacheState, manufacturer: string, model: string, parsed: ParseResult,
                             updated: Fetch, all: Fetch, answers: seq<Answer>, gaps: Gaps,
                             between: seq<seq<CacheOp>>)
    requires |answers| == |between| == |parsed.measurements|
    requires WellKeyed(cs) && Supported(manufacturer, model)
    requires var found := LocateIn(cs, manufacturer, model, parsed.serial, updated, all, gaps);
             && NotMisled(found, parsed.serial)
             && NeverRefreshed(between, Key(found.result.value.manufacturer, found.result.value.model, parsed.serial))
    ensures var found := LocateIn(cs, manufacturer, model, parsed.serial, updated, all, gaps);
            var r := HandleIn(cs, manufacturer, model, parsed, updated, all, answers, gaps, between).result;
            r.Ok? ==>
              && r.value.deploymentID == found.result.value.deploymentID
              && r.value.deviceID == Some(found.result.value.deviceID)
              && r.value.gatewayDeploymentID == found.result.value.gatewayDeploymentID
  {
    hide Key, LocateIn, Ensure, Built, Supported, WellKeyed, NeverRefreshed, HasSerialCut, Tracks;
    var found := LocateIn(cs, manufacturer, model, parsed.serial, updated, all, gaps);
    var record := found.result.value;
    LocatedNamesItsEntry(cs, manufacturer, model, parsed.serial, updated, all, gaps);
    CachedIsTracked(found.cache, Key(record.manufacturer, record.model, parsed.serial), record, parsed.measurements);
    EnsureKeepsIdentity(found.cache, record, parsed.measurements, parsed.serial, answers, between);
    HandleOutcome(cs, manufacturer, model, parsed, updated, all, answers, gaps, between);
  }

  // ---- The class ----

  class Service {
    const registry: Registry
    const cache: DeviceCache
    const publisher: BufferedPublisher

    constructor (registry: Registry, cache: DeviceCache, publisher: BufferedPublisher)
      ensures this.registry == registry && this.cache == cache && this.publisher == publisher
    {
      this.registry, this.cache, this.publisher := registry, cache, publisher;
    }

    /** lookupByManufacturerAndSerialFallback: the map's iteration order does not show. */
    method LookupFallback(manufacturer: string, serial: string) returns (r: Option<DeviceRecord>)
      ensures r == FallbackIn(cache.State(), manufacturer, serial)
    {
      var matches, order := cache.FindByManufacturerAndSerial(manufacturer, serial);
      FallbackIgnoresOrder(cache.State(), order, manufacturer, serial);
      r := if |matches| != 1 then None else Some(matches[0]);
    }

    /** refreshAndLookupDevice, others working on the cache in its gaps. */
    method RefreshAndLookupDevice(manufacturer: string, model: string, serial: string, updated: Fetch, all: Fetch,
                                  gaps: Gaps)
      returns (r: Result<DeviceRecord, IngestError>)
      modifies cache
      ensures var found := RefreshIn(old(cache.State()), manufacturer, model, serial, updated, all, gaps);
              cache.State() == found.cache && r == found.result
      ensures SearchAnswers(StagesOf(old(cache.State()), updated, all, gaps), manufacturer, model, serial, updated,
                            all, r)
    {
      hide Key, ApplyAll, FallbackIn, SearchAnswers, StagesOf;
      RefreshAnswers(cache.State(), manufacturer, model, serial, updated, all, gaps);
      cache.Meanwhile(gaps.fetching);
      if updated.FetchFailed? {
        return Err(UpdatedFetchFailed);
      }
      if |updated.uploads| > 0 {
        cache.UpsertMany(updated.uploads);
      }
      cache.Meanwhile(gaps.updated);
      var record := cache.Lookup(manufacturer, model, serial);
      if record.Some? {
        return Ok(record.value);
      }
      cache.Meanwhile(gaps.missed);
      record := LookupFallback(manufacturer, serial);
      if record.Some? {
        return Ok(record.value);
      }
      cache.Meanwhile(gaps.refetching);
      if all.FetchFailed? {
        return Err(FullFetchFailed);
      }
      cache.UpsertMany(all.uploads);
      cache.Meanwhile(gaps.refreshed);
      record := cache.Lookup(manufacturer, model, serial);
      if record.None? {
        cache.Meanwhile(gaps.missedAgain);
        record := LookupFallback(manufacturer, serial);
      }
      r := if record.Some? then Ok(record.value) else Err(DeviceNotFound);
    }

    /** The device lookup of Handle. */
    method FindDevice(manufacturer: string, model: string, serial: string, updated: Fetch, all: Fetch, gaps: Gaps)
      returns (r: Result<DeviceRecord, IngestError>)
      modifies cache
      ensures var found := LocateIn(old(cache.State()), manufacturer, model, serial, updated, all, gaps);
              cache.State() == found.cache && r == found.result
      ensures var key := Key(manufacturer, model, serial);
              if key in old(cache.byKey) then r == Ok(old(cache.byKey)[key]) && cache.State() == old(cache.State())
              else SearchAnswers(StagesOf(old(cache.State()), updated, all, gaps), manufacturer, model, serial, updated,
                                 all, r)
    {
      hide Key, RefreshIn, SearchAnswers, StagesOf;
      var record := cache.Lookup(manufacturer, model, serial);
      if record.Some? {
        return Ok(record.value);
      }
      r := RefreshAndLookupDevice(manufacturer, model, serial, updated, all, gaps);
    }

    /** ensureChannels, others working on the cache before each of its steps. */
    method EnsureChannels(found: DeviceRecord, parsed: ParseResult, answers: seq<Answer>, between: seq<seq<CacheOp>>)
      returns (r: Result<DeviceRecord, EnsureError>, requests: seq<CreateRequest>)
      requires |answers| == |between| == |parsed.measurements|
      modifies cache
      ensures Ensure(old(cache.State()), found, parsed.measurements, parsed.serial, answers, between)
           == Ensured(cache.State(), requests, r)
      ensures exists at :: Asked(requests, parsed.measurements, at)
    {
      var ms, serial := parsed.measurements, parsed.serial;
      hide Asked;
      ghost var whole := Ensure(cache.State(), found, ms, serial, answers, between);
      ghost var at := RequestsAsk(cache.State(), found, ms, serial, answers, between);
      var record := found;
      requests := [];
      assert ms[0..] == ms && answers[0..] == answers && between[0..] == between;
      for i := 0 to |ms|
        invariant RestGives(whole, requests, cache.State(), record, ms, serial, answers, between, i)
      {
        RestUnfolds(whole, requests, cache.State(), record, ms, serial, answers, between, i);
        cache.Meanwhile(between[i]);
        if Resolve(record.channels, ms[i].name).Some? {
          continue;
        }
        var channelTag := TrimSpace(ms[i].name);
        if channelTag == "" {
          continue;
        }
        var request := CreateRequest(record.deploymentID, channelTag, channelTag, NormalizeUnit(ms[i].unit));
        requests := requests + [request];
        if answers[i].Refused? {
          return Err(CreateFailed(channelTag)), requests;
        }
        var mapping := MappingOf(answers[i], request);
        var updated := cache.UpsertChannelMapping(record.manufacturer, record.model, serial, mapping);
        if updated.None? {
          return Err(CacheUpdateFailed), requests;
        }
        record := updated.value;
      }
      r := Ok(record);
    }

    /** Handle. On success exactly one fresh item with the built sample joins the queue, and a
        flush is asked for exactly when that fills a batch and none is under way; on any
        failure the publisher is as before. Others may work on the cache in every gap. */
    method Handle(manufacturer: string, model: string, parse: Option<ParseResult>, updated: Fetch, all: Fetch,
                  answers: seq<Answer>, gaps: Gaps, between: seq<seq<CacheOp>>, receivedAt: int)
      returns (r: Result<(), IngestError>, startFlush: bool)
      requires parse.Some? ==> |answers| == |between| == |parse.value.measurements|
      requires publisher.Valid()
      modifies cache, publisher
      ensures publisher.Valid()
      ensures var supported := PairKey(manufacturer, model) in registry.parsers;
              && (!supported ==> r == Err(UnsupportedDevice))
              && (supported && parse.None? ==> r == Err(ParseFailed))
              && (!supported || parse.None? ==> cache.State() == old(cache.State()))
              && (supported && parse.Some? ==>
                    var handled := HandleIn(old(cache.State()), manufacturer, model, parse.value, updated, all,
                                            answers, gaps, between);
                    && cache.State() == handled.cache
                    && r == (if handled.result.Ok? then Ok(()) else Err(handled.result.error))
                    && (r.Ok? ==>
                          var envelope := Envelope("", handled.result.value, receivedAt);
                          && publisher.buffer == old(publisher.buffer) + [Fresh(envelope)]
                          && publisher.books == Step(publisher.cfg, old(publisher.books), Arrive(envelope))))
      ensures r.Ok? && parse.Some? ==>
                exists record :: Carries(publisher.buffer[|old(publisher.buffer)|].envelope.sample, record, parse.value)
      ensures r.Ok? ==> (startFlush <==> |publisher.buffer| >= publisher.cfg.flushCount && !publisher.flushing)
      ensures r.Err? ==> !startFlush
      ensures r.Err? ==> publisher.buffer == old(publisher.buffer) && publisher.books == old(publisher.books)
      ensures publisher.flushing == old(publisher.flushing) && registry.parsers == old(registry.parsers)
    {
      hide PairKey, LocateIn, Ensure, Built, Step, Resolves, Carries, Asked, SearchAnswers, StagesOf,
        NamesFirstUnresolved, Key;
      var parser := registry.Lookup(manufacturer, model);
      if parser.None? {
        return Err(UnsupportedDevice), false;
      }
      if parse.None? {
        return Err(ParseFailed), false;
      }
      var parsed := parse.value;
      var found := FindDevice(manufacturer, model, parsed.serial, updated, all, gaps);
      if found.Err? {
        return Err(found.error), false;
      }
      var ensured, requests := EnsureChannels(found.value, parsed, answers, between);
      if ensured.Err? {
        return Err(EnsureFailed(ensured.error)), false;
      }
      var sample := BuildTelemetry(ensured.value, parsed);
      if sample.Err? {
        return Err(BuildFailed(sample.error)), false;
      }
      startFlush := publisher.Enqueue(Envelope("", sample.value, receivedAt));
      assert publisher.buffer[|old(publisher.buffer)|].envelope.sample == sample.value;
      assert Carries(sample.value, ensured.value, parsed);
      r := Ok(());
    }
  }

  /** What the loop has done so far, followed by what the rest does, is the whole. */
  ghost predicate RestGives(whole: Ensured, requests: seq<CreateRequest>, cs: CacheState, record: DeviceRecord,
                            ms: seq<Measurement>, serial: string, answers: seq<Answer>, between: seq<seq<CacheOp>>,
                            i: nat)
    requires |answers| == |between| == |ms| && i <= |ms|
  {
    var rest := Ensure(cs, record, ms[i..], serial, answers[i..], between[i..]);
    whole == Ensured(rest.cache, requests + rest.requests, rest.result)
  }

  lemma RestUnfolds(whole: Ensured, requests: seq<CreateRequest>, cs: CacheState, record: DeviceRecord,
                    ms: seq<Measurement>, serial: string, answers: seq<Answer>, between: seq<seq<CacheOp>>, i: nat)
    requires |answers| == |between| == |ms| && i < |ms|
    requires RestGives(whole, requests, cs, record, ms, serial, answers, between, i)
    ensures var now := ApplyAll(cs, between[i]);
            var request := RequestFor(record, ms[i]);
            var key := Key(record.manufacturer, record.model, serial);
            && (Resolves(record, ms[i]) || Blank(ms[i]) ==>
                  RestGives(whole, requests, now, record, ms, serial, answers, between, i + 1))
            && (!Resolves(record, ms[i]) && !Blank(ms[i]) ==>
                  && (answers[i].Refused? ==>
                        whole == Ensured(now, requests + [request], Err(CreateFailed(request.tag))))
                  && (answers[i].Created? && key !in now.byKey ==>
                        whole == Ensured(now, requests + [request], Err(CacheUpdateFailed)))
                  && (answers[i].Created? && key in now.byKey ==>
                        var next := PutChannel(now, key, MappingOf(answers[i], request));
                        RestGives(whole, requests + [request], next, next.byKey[key], ms, serial, answers, between,
                                  i + 1)))
  {
    hide Key, Resolves, Blank, RequestFor, MappingOf, ApplyAll;
    assert ms[i..][0] == ms[i] && ms[i..][1..] == ms[i + 1..];
    assert answers[i..][0] == answers[i] && answers[i..][1..] == answers[i + 1..];
    assert between[i..][0] == between[i] && between[i..][1..] == between[i + 1..];
    var now, key := ApplyAll(cs, between[i]), Key(record.manufacturer, record.model, serial);
    if !Resolves(record, ms[i]) && !Blank(ms[i]) && answers[i].Created? && key in now.byKey {
      var request := RequestFor(record, ms[i]);
      var next := PutChannel(now, key, MappingOf(answers[i], request));
      var rest := Ensure(next, next.byKey[key], ms[i + 1..], serial, answers[i + 1..], between[i + 1..]);
      assert requests + ([request] + rest.requests) == (requests + [request]) + rest.requests;
    }
  }
}
