/** ensureChannels: create the channels an upload names and the record lacks. The function
    lets other requests and the syncer work on the cache between any two steps of the loop. */
module ChannelEnsuring {
  import opened Basics
  import opened AsciiText
  import opened ChannelMappings
  import opened DeviceCaching
  import opened TelemetryBuilding

  datatype CreateRequest = CreateRequest(deploymentID: UInt64, tag: string, name: string, unit: string)

  /** The server's answer to a creation request. */
  datatype Answer = Created(channelID: UInt64, tag: string) | Refused

  datatype EnsureError = CreateFailed(tag: string) | CacheUpdateFailed

  datatype Ensured = Ensured(cache: CacheState, requests: seq<CreateRequest>, result: Result<DeviceRecord, EnsureError>)

  const DEGREE: string := "\U{00B0}"
  const REPLACEMENT: string := "\U{FFFD}"

  function NormalizeUnit(raw: string): string {
    var unit := TrimSpace(raw);
    if unit == "C" || unit == DEGREE + "C" || unit == REPLACEMENT + "C" then DEGREE + "C"
    else if unit == "F" || unit == DEGREE + "F" then DEGREE + "F"
    else unit
  }

  /** A unit sent to the server is in normal form: padding does not show, normalizing again
      changes nothing, and exactly the spellings of the two degrees, also Celsius after a
      wrongly decoded sign, are brought to one. */
  lemma UnitIsNormalForm(left: string, raw: string, right: string)
    requires AllSpace(left) && AllSpace(right)
    ensures NormalizeUnit(left + raw + right) == NormalizeUnit(raw)
    ensures NormalizeUnit(NormalizeUnit(raw)) == NormalizeUnit(raw)
    ensures NormalizeUnit(raw) == DEGREE + "C" <==> TrimSpace(raw) in {"C", DEGREE + "C", REPLACEMENT + "C"}
    ensures NormalizeUnit(raw) == DEGREE + "F" <==> TrimSpace(raw) in {"F", DEGREE + "F"}
    ensures NormalizeUnit(raw) != TrimSpace(raw) <==> TrimSpace(raw) in {"C", "F", REPLACEMENT + "C"}
  {
    hide TrimSpace, ToLower;
    NormalizeIgnoresPaddingAndCase(left, raw, right);
    TrimIdempotent(raw);
    TightStays(DEGREE + "C");
    TightStays(DEGREE + "F");
  }

  function RequestFor(record: DeviceRecord, m: Measurement): CreateRequest {
    CreateRequest(record.deploymentID, TrimSpace(m.name), TrimSpace(m.name), NormalizeUnit(m.unit))
  }

  /** The client fills in the requested tag when the server leaves it blank. */
  function MappingOf(answer: Answer, request: CreateRequest): ChannelMapping
    requires answer.Created?
  {
    ChannelMapping(answer.channelID, if TrimSpace(answer.tag) == "" then request.tag else answer.tag)
  }

  predicate Blank(m: Measurement) {
    TrimSpace(m.name) == ""
  }

  function Prepend(request: CreateRequest, e: Ensured): Ensured {
    e.(requests := [request] + e.requests)
  }

  /** answers[i] is what the server would say to the i-th measurement's request; between[i] is
      what others do to the cache before the i-th iteration touches it. */
  function Ensure(cs: CacheState, record: DeviceRecord, ms: seq<Measurement>, serial: string,
                  answers: seq<Answer>, between: seq<seq<CacheOp>>): Ensured
    requires |answers| == |between| == |ms|
    decreases |ms|
  {
    if ms == [] then Ensured(cs, [], Ok(record))
    else
      var now := ApplyAll(cs, between[0]);
      if Resolves(record, ms[0]) || Blank(ms[0]) then
        Ensure(now, record, ms[1..], serial, answers[1..], between[1..])
      else
        var request := RequestFor(record, ms[0]);
        if answers[0].Refused? then Ensured(now, [request], Err(CreateFailed(request.tag)))
        else
          var key := Key(record.manufacturer, record.model, serial);
          if key !in now.byKey then Ensured(now, [request], Err(CacheUpdateFailed))
          else
            var next := PutChannel(now, key, MappingOf(answers[0], request));
            Prepend(request, Ensure(next, next.byKey[key], ms[1..], serial, answers[1..], between[1..]))
  }

  // ---- What a creation writes ----

  /** The server names each channel it creates as asked, up to normalization, or not at all. */
  ghost predicate Echoes(answers: seq<Answer>, ms: seq<Measurement>)
    requires |answers| == |ms|
  {
    forall i :: 0 <= i < |ms| && answers[i].Created? ==>
      TrimSpace(answers[i].tag) == "" || Normalize(answers[i].tag) == Normalize(ms[i].name)
  }

  lemma EchoedTag(answer: Answer, record: DeviceRecord, m: Measurement)
    requires answer.Created? && (TrimSpace(answer.tag) == "" || Normalize(answer.tag) == Normalize(m.name))
    ensures Normalize(MappingOf(answer, RequestFor(record, m)).tag) == Normalize(m.name)
  {
    NormalizeIgnoresPaddingAndCase("", m.name, "");
  }

  /** The tag written to the cache is never blank, by this request or any other. */
  lemma WrittenTagIsNotBlank(answer: Answer, record: DeviceRecord, m: Measurement)
    requires answer.Created? && !Blank(m)
    ensures Normalize(MappingOf(answer, RequestFor(record, m)).tag) != ""
  {
    TrimIdempotent(m.name);
    BlankNormalizesToEmpty(answer.tag);
    BlankNormalizesToEmpty(TrimSpace(m.name));
  }

  lemma ResolvesByTag(record: DeviceRecord, m: Measurement)
    ensures Resolves(record, m) <==> Normalize(m.name) in TagMap(record.channels)
  {
    ResolveIsLookup(record.channels, m.name);
  }

  // ---- Without a refresh of the device ----

  /** No upload in ops is for the device with this key. */
  ghost predicate NoRefresh(ops: seq<CacheOp>, key: string) {
    forall i :: 0 <= i < |ops| && ops[i].Batch? ==>
      forall j :: 0 <= j < |ops[i].uploads| ==> OwnKey(ops[i].uploads[j].record) != key
  }

  ghost predicate NeverRefreshed(between: seq<seq<CacheOp>>, key: string) {
    forall i :: 0 <= i < |between| ==> NoRefresh(between[i], key)
  }

  /** The cached device has the record's identity and at least its tags. */
  ghost predicate Tracks(cs: CacheState, key: string, record: DeviceRecord) {
    && key in cs.byKey
    && SameIdentity(cs.byKey[key], record)
    && TagMap(record.channels).Keys <= TagMap(cs.byKey[key].channels).Keys
  }

  lemma {:induction false} OtherUploads(cs: CacheState, uploads: seq<Upload>, key: string)
    requires key in cs.byKey
    requires forall j :: 0 <= j < |uploads| ==> OwnKey(uploads[j].record) != key
    ensures key in UpsertAll(cs, uploads).byKey && UpsertAll(cs, uploads).byKey[key] == cs.byKey[key]
    decreases |uploads|
  {
    if uploads != [] { OtherUploads(cs, uploads[..|uploads| - 1], key); }
  }

  lemma {:induction false} OpsKeepTracking(cs: CacheState, ops: seq<CacheOp>, key: string, record: DeviceRecord)
    requires Tracks(cs, key, record) && NoRefresh(ops, key)
    ensures Tracks(ApplyAll(cs, ops), key, record)
    decreases |ops|
  {
    hide Key, OwnKey;
    if ops != [] {
      var init, last := ops[..|ops| - 1], ops[|ops| - 1];
      OpsKeepTracking(cs, init, key, record);
      var mid := ApplyAll(cs, init);
      match last
      case Batch(uploads) => OtherUploads(mid, uploads, key);
      case Channel(_, _, _, mapping) => PutIsMapUpdate(mid.byKey[key].channels, mapping);
    }
  }

  // ---- Texts and keys ----

  lemma PlainText(s: string)
    requires forall i :: 0 <= i < |s| ==> !IsSpace(s[i]) && LowerChar(s[i]) == s[i]
    ensures TrimSpace(s) == s && Normalize(s) == s
  {
    TightStays(s);
    assert ToLower(s) == s;
  }

  lemma SamePrefix(a: string, x: string, y: string)
    ensures a + SEPARATOR + x == a + SEPARATOR + y <==> x == y
  {
    assert (a + SEPARATOR + x)[|a| + 1..] == x && (a + SEPARATOR + y)[|a| + 1..] == y;
  }

  lemma SameSuffix(a: string, b: string, x: string)
    ensures a + SEPARATOR + x == b + SEPARATOR + x <==> a == b
  {
    assert (a + SEPARATOR + x)[..|a|] == a && (b + SEPARATOR + x)[..|b|] == b;
  }
}
