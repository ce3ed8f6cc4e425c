/** The device cache: records by normalized key. The class has the source's fields and loops;
    a CacheState is the value they hold, and what is proved over whole runs is proved there. */
module DeviceCaching {
  import opened Basics
  import opened AsciiText
  import opened ChannelMappings

  /** updatedAt counts from Go's zero time. */
  datatype DeviceRecord = DeviceRecord(
    deviceID: UInt64,
    deploymentID: UInt64,
    gatewayDeploymentID: Option<UInt64>,
    serial: string,
    manufacturer: string,
    model: string,
    channels: Channels,
    updatedAt: int)

  const SEPARATOR: string := "|"

  function Key(manufacturer: string, model: string, serial: string): string {
    Normalize(manufacturer) + SEPARATOR + Normalize(model) + SEPARATOR + TrimSpace(serial)
  }

  function OwnKey(record: DeviceRecord): string {
    Key(record.manufacturer, record.model, record.serial)
  }

  // ---- When a key tells its parts ----

  function Bars(s: string): nat {
    if s == "" then 0 else (if s[0] == '|' then 1 else 0) + Bars(s[1..])
  }

  lemma {:induction false} BarsAppend(s: string, t: string)
    ensures Bars(s + t) == Bars(s) + Bars(t)
  {
    if s == "" {
      assert s + t == t;
    } else {
      assert (s + t)[1..] == s[1..] + t;
      BarsAppend(s[1..], t);
    }
  }

  lemma {:induction false} NoBarsInSpace(s: string)
    requires AllSpace(s)
    ensures Bars(s) == 0
  {
    if s != "" { NoBarsInSpace(s[1..]); }
  }

  lemma {:induction false} LowerKeepsBars(s: string)
    ensures Bars(ToLower(s)) == Bars(s)
  {
    if s != "" {
      assert ToLower(s)[1..] == ToLower(s[1..]);
      LowerKeepsBars(s[1..]);
    }
  }

  lemma NormalizeKeepsBars(s: string)
    ensures Bars(Normalize(s)) == Bars(s)
  {
    var left, right := TrimSpaceSplits(s);
    BarsAppend(left + TrimSpace(s), right);
    BarsAppend(left, TrimSpace(s));
    NoBarsInSpace(left);
    NoBarsInSpace(right);
    LowerKeepsBars(TrimSpace(s));
  }

  /** Two texts cut at a bar agree piecewise when the front pieces have equally many bars. */
  lemma CutAtBar(a: string, x: string, b: string, y: string)
    requires a + SEPARATOR + x == b + SEPARATOR + y
    ensures Bars(a) == Bars(b) <==> a == b
    ensures a == b ==> x == y
  {
    if |a| < |b| {
      ShorterHasFewerBars(a, x, b, y);
    } else if |b| < |a| {
      ShorterHasFewerBars(b, y, a, x);
    } else {
      var whole := a + SEPARATOR + x;
      assert a == whole[..|a|] == b;
      assert x == whole[|a| + 1..] == y;
    }
  }

  lemma ShorterHasFewerBars(a: string, x: string, b: string, y: string)
    requires a + SEPARATOR + x == b + SEPARATOR + y && |a| < |b|
    ensures Bars(a) < Bars(b)
  {
    var whole := a + SEPARATOR + x;
    var middle := whole[|a| + 1..|b|];
    assert b == whole[..|b|] == a + SEPARATOR + middle;
    BarsAppend(a + SEPARATOR, middle);
    BarsAppend(a, SEPARATOR);
    assert SEPARATOR[1..] == "";
  }

  /** A key gives its serial away exactly when the manufacturer and model it was made of had
      as many bars together as those it is compared with. */
  lemma KeyTellsSerialIff(m: string, mo: string, s: string, m': string, mo': string, s': string)
    requires Key(m, mo, s) == Key(m', mo', s')
    ensures Bars(m) + Bars(mo) == Bars(m') + Bars(mo') <==>
              && TrimSpace(s) == TrimSpace(s')
              && Normalize(m) + SEPARATOR + Normalize(mo) == Normalize(m') + SEPARATOR + Normalize(mo')
  {
    var front, front' := Normalize(m) + SEPARATOR + Normalize(mo), Normalize(m') + SEPARATOR + Normalize(mo');
    CutAtBar(front, TrimSpace(s), front', TrimSpace(s'));
    BarsOfPair(m, mo);
    BarsOfPair(m', mo');
  }

  lemma BarsOfPair(m: string, mo: string)
    ensures Bars(Normalize(m) + SEPARATOR + Normalize(mo)) == Bars(m) + Bars(mo) + 1
  {
    BarsAppend(Normalize(m) + SEPARATOR, Normalize(mo));
    BarsAppend(Normalize(m), SEPARATOR);
    NormalizeKeepsBars(m);
    NormalizeKeepsBars(mo);
    assert SEPARATOR[1..] == "";
  }

  /** The key is injective up to normalization over manufacturers with equally many bars and
      models with equally many bars; the serial may have any. */
  lemma KeyInjective(m: string, mo: string, s: string, m': string, mo': string, s': string)
    requires Bars(m) == Bars(m') && Bars(mo) == Bars(mo')
    ensures Key(m, mo, s) == Key(m', mo', s') <==>
              Normalize(m) == Normalize(m') && Normalize(mo) == Normalize(mo') && TrimSpace(s) == TrimSpace(s')
  {
    if Key(m, mo, s) == Key(m', mo', s') {
      KeyTellsSerialIff(m, mo, s, m', mo', s');
      CutAtBar(Normalize(m), Normalize(mo), Normalize(m'), Normalize(mo'));
      NormalizeKeepsBars(m);
      NormalizeKeepsBars(m');
    }
  }

  // ---- The cache as a value ----

  datatype CacheState = CacheState(byKey: map<string, DeviceRecord>, updatedAt: int)

  const EMPTY_CACHE: CacheState := CacheState(map[], 0)

  /** The record as UpsertMany stores it: a zero stamp becomes the clock reading. */
  function Dated(record: DeviceRecord, now: int): DeviceRecord {
    if record.updatedAt == 0 then record.(updatedAt := now) else record
  }

  function UpsertOne(cs: CacheState, record: DeviceRecord, now: int): CacheState {
    var dated := Dated(record, now);
    CacheState(cs.byKey[OwnKey(dated) := dated], Max(cs.updatedAt, dated.updatedAt))
  }

  /** A record with the clock reading of its loop iteration. */
  datatype Upload = Upload(record: DeviceRecord, now: int)

  function UpsertAll(cs: CacheState, uploads: seq<Upload>): CacheState {
    if uploads == [] then cs
    else UpsertOne(UpsertAll(cs, uploads[..|uploads| - 1]), uploads[|uploads| - 1].record, uploads[|uploads| - 1].now)
  }

  function LookupIn(cs: CacheState, manufacturer: string, model: string, serial: string): Option<DeviceRecord> {
    var key := Key(manufacturer, model, serial);
    if key in cs.byKey then Some(cs.byKey[key]) else None
  }

  function WithChannel(record: DeviceRecord, mapping: ChannelMapping): DeviceRecord {
    record.(channels := Put(record.channels, mapping))
  }

  function PutChannel(cs: CacheState, key: string, mapping: ChannelMapping): CacheState {
    if key in cs.byKey then cs.(byKey := cs.byKey[key := WithChannel(cs.byKey[key], mapping)]) else cs
  }

  // ---- Whole runs ----

  datatype CacheOp =
    | Batch(uploads: seq<Upload>)
    | Channel(manufacturer: string, model: string, serial: string, mapping: ChannelMapping)

  function Apply(cs: CacheState, op: CacheOp): CacheState {
    match op
    case Batch(uploads) => UpsertAll(cs, uploads)
    case Channel(m, mo, s, mapping) => PutChannel(cs, Key(m, mo, s), mapping)
  }

  function ApplyAll(cs: CacheState, ops: seq<CacheOp>): CacheState {
    if ops == [] then cs else Apply(ApplyAll(cs, ops[..|ops| - 1]), ops[|ops| - 1])
  }

  /** Every record the run has uploaded, dated, in order. */
  function UploadsOf(ops: seq<CacheOp>): seq<Upload> {
    if ops == [] then []
    else UploadsOf(ops[..|ops| - 1]) + (if ops[|ops| - 1].Batch? then ops[|ops| - 1].uploads else [])
  }

  /** The last record uploaded under a key. */
  function LastUploaded(uploads: seq<Upload>, key: string): Option<DeviceRecord> {
    if uploads == [] then None
    else
      var last := uploads[|uploads| - 1];
      if OwnKey(last.record) == key then Some(Dated(last.record, last.now))
      else LastUploaded(uploads[..|uploads| - 1], key)
  }

  /** The latest stamp of the uploads, starting from the cache's own. */
  function LatestStamp(start: int, uploads: seq<Upload>): int {
    if uploads == [] then start
    else
      var last := uploads[|uploads| - 1];
      Max(LatestStamp(start, uploads[..|uploads| - 1]), Dated(last.record, last.now).updatedAt)
  }

  predicate SameIdentity(r: DeviceRecord, t: DeviceRecord) {
    && r.deviceID == t.deviceID && r.deploymentID == t.deploymentID && r.gatewayDeploymentID == t.gatewayDeploymentID
    && r.serial == t.serial && r.manufacturer == t.manufacturer && r.model == t.model && r.updatedAt == t.updatedAt
  }

  /** The cache against all uploads so far: the same keys, each record with the identity and
      stamp of the last one uploaded there, and the latest stamp of all. */
  ghost predicate Reflects(cs: CacheState, uploads: seq<Upload>) {
    && (forall key :: key in cs.byKey <==> LastUploaded(uploads, key).Some?)
    && (forall key :: key in cs.byKey ==>
          LastUploaded(uploads, key).Some? && SameIdentity(cs.byKey[key], LastUploaded(uploads, key).value))
    && cs.updatedAt == LatestStamp(0, uploads)
  }

  ghost predicate WellKeyed(cs: CacheState) {
    forall key :: key in cs.byKey ==> OwnKey(cs.byKey[key]) == key && cs.byKey[key].updatedAt <= cs.updatedAt
  }

  lemma UploadKeeps(cs: CacheState, before: seq<Upload>, upload: Upload)
    requires Reflects(cs, before) && WellKeyed(cs)
    ensures Reflects(UpsertOne(cs, upload.record, upload.now), before + [upload])
    ensures WellKeyed(UpsertOne(cs, upload.record, upload.now))
  {
    hide Key;
    var all := before + [upload];
    assert all[..|all| - 1] == before && all[|all| - 1] == upload;
  }

  lemma {:induction false} UploadsKeep(cs: CacheState, before: seq<Upload>, uploads: seq<Upload>)
    requires Reflects(cs, before) && WellKeyed(cs)
    ensures Reflects(UpsertAll(cs, uploads), before + uploads) && WellKeyed(UpsertAll(cs, uploads))
    decreases |uploads|
  {
    hide Reflects, WellKeyed;
    if uploads == [] {
      assert before + uploads == before;
    } else {
      var init, last := uploads[..|uploads| - 1], uploads[|uploads| - 1];
      UploadsKeep(cs, before, init);
      UploadKeeps(UpsertAll(cs, init), before + init, last);
      assert before + uploads == before + init + [last];
    }
  }

  lemma {:induction false} RunReflects(ops: seq<CacheOp>)
    ensures Reflects(ApplyAll(EMPTY_CACHE, ops), UploadsOf(ops)) && WellKeyed(ApplyAll(EMPTY_CACHE, ops))
    decreases |ops|
  {
    if ops != [] {
      var init, last := ops[..|ops| - 1], ops[|ops| - 1];
      RunReflects(init);
      var cs := ApplyAll(EMPTY_CACHE, init);
      match last
      case Batch(uploads) => UploadsKeep(cs, UploadsOf(init), uploads);
      case Channel(_, _, _, _) => assert UploadsOf(init) + [] == UploadsOf(init);
    }
  }

  /** The cache over every run of uploads and channel upserts: every record is under its own
      key, with the identity of the last one uploaded there, and updatedAt is the latest
      stamp ever uploaded and bounds every record's. */
  lemma CacheOverRuns(ops: seq<CacheOp>, key: string)
    ensures var cs := ApplyAll(EMPTY_CACHE, ops);
            && (key in cs.byKey <==> LastUploaded(UploadsOf(ops), key).Some?)
            && (key in cs.byKey ==>
                  && OwnKey(cs.byKey[key]) == key
                  && SameIdentity(cs.byKey[key], LastUploaded(UploadsOf(ops), key).value)
                  && cs.byKey[key].updatedAt <= cs.updatedAt)
            && cs.updatedAt == LatestStamp(0, UploadsOf(ops))
  {
    RunReflects(ops);
  }

  // ---- Which stamps a run leaves ----

  /** The record's own stamp, or the clock reading at its upload when it has none. */
  ghost predicate IsStampOf(stamp: int, upload: Upload) {
    && (upload.record.updatedAt != 0 ==> stamp == upload.record.updatedAt)
    && (upload.record.updatedAt == 0 ==> stamp == upload.now)
  }

  /** i is the last upload of a record with this key. */
  ghost predicate IsLastUpload(uploads: seq<Upload>, i: nat, key: string) {
    && i < |uploads|
    && OwnKey(uploads[i].record) == key
    && (forall j :: i < j < |uploads| ==> OwnKey(uploads[j].record) != key)
  }

  lemma {:induction false} LastUploadedIs(uploads: seq<Upload>, key: string) returns (i: nat)
    requires LastUploaded(uploads, key).Some?
    ensures IsLastUpload(uploads, i, key)
    ensures IsStampOf(LastUploaded(uploads, key).value.updatedAt, uploads[i])
    ensures var last := LastUploaded(uploads, key).value;
            last == uploads[i].record.(updatedAt := last.updatedAt)
  {
    hide Key;
    i := |uploads| - 1;
    if OwnKey(uploads[i].record) != key {
      i := LastUploadedIs(uploads[..i], key);
    }
  }

  lemma {:induction false} LatestStampIs(uploads: seq<Upload>)
    ensures LatestStamp(0, uploads) >= 0
    ensures forall i, stamp :: 0 <= i < |uploads| && IsStampOf(stamp, uploads[i]) ==> stamp <= LatestStamp(0, uploads)
    ensures LatestStamp(0, uploads) == 0 ||
            exists i :: 0 <= i < |uploads| && IsStampOf(LatestStamp(0, uploads), uploads[i])
  {
    if uploads != [] {
      var n := |uploads| - 1;
      var init, last := uploads[..n], uploads[n];
      LatestStampIs(init);
      assert IsStampOf(Dated(last.record, last.now).updatedAt, uploads[n]);
      assert forall i :: 0 <= i < n ==> init[i] == uploads[i];
      forall i, stamp | 0 <= i < |uploads| && IsStampOf(stamp, uploads[i])
        ensures stamp <= LatestStamp(0, uploads)
      {
        assert i < n ==> IsStampOf(stamp, init[i]);
      }
    }
  }

  /** Over every run: a cached record has the last upload's ids and names, and that upload's own
      stamp, or the clock reading at it if it came without one; updatedAt is zero or such a
      stamp of some upload, and none is later. */
  lemma StampsOverRuns(ops: seq<CacheOp>, key: string)
    ensures var cs, uploads := ApplyAll(EMPTY_CACHE, ops), UploadsOf(ops);
            && (key in cs.byKey ==>
                  exists i: nat ::
                    && IsLastUpload(uploads, i, key)
                    && IsStampOf(cs.byKey[key].updatedAt, uploads[i])
                    && SameIdentity(cs.byKey[key], uploads[i].record.(updatedAt := cs.byKey[key].updatedAt)))
            && cs.updatedAt >= 0
            && (forall i, stamp :: 0 <= i < |uploads| && IsStampOf(stamp, uploads[i]) ==> stamp <= cs.updatedAt)
            && (cs.updatedAt == 0 || exists i :: 0 <= i < |uploads| && IsStampOf(cs.updatedAt, uploads[i]))
  {
    hide Key, LastUploaded, LatestStamp, IsStampOf, OwnKey, IsLastUpload;
    var cs, uploads := ApplyAll(EMPTY_CACHE, ops), UploadsOf(ops);
    CacheOverRuns(ops, key);
    LatestStampIs(uploads);
    if key in cs.byKey {
      var i := LastUploadedIs(uploads, key);
      assert IsLastUpload(uploads, i, key);
    }
  }

  /** The same operations with possibly other clock readings, every record already stamped. */
  ghost predicate SameButClocks(ops: seq<CacheOp>, ops': seq<CacheOp>) {
    |ops| == |ops'| && forall i :: 0 <= i < |ops| ==> SameOpButClocks(ops[i], ops'[i])
  }

  ghost predicate SameOpButClocks(op: CacheOp, op': CacheOp) {
    match op
    case Batch(uploads) => op'.Batch? && SameUploadsButClocks(uploads, op'.uploads)
    case Channel(_, _, _, _) => op' == op
  }

  ghost predicate SameUploadsButClocks(uploads: seq<Upload>, uploads': seq<Upload>) {
    && |uploads| == |uploads'|
    && (forall i :: 0 <= i < |uploads| ==>
          uploads[i].record == uploads'[i].record && uploads[i].record.updatedAt != 0)
  }

  lemma {:induction false} UploadClocksDoNotMatter(cs: CacheState, uploads: seq<Upload>, uploads': seq<Upload>)
    requires SameUploadsButClocks(uploads, uploads')
    ensures UpsertAll(cs, uploads) == UpsertAll(cs, uploads')
    decreases |uploads|
  {
    hide Key;
    if uploads != [] {
      UploadClocksDoNotMatter(cs, uploads[..|uploads| - 1], uploads'[..|uploads| - 1]);
    }
  }

  /** When every uploaded record has a stamp, no clock reading has any effect on the cache. */
  lemma {:induction false} ClocksDoNotMatter(cs: CacheState, ops: seq<CacheOp>, ops': seq<CacheOp>)
    requires SameButClocks(ops, ops')
    ensures ApplyAll(cs, ops) == ApplyAll(cs, ops')
    decreases |ops|
  {
    hide UpsertAll, Key;
    if ops != [] {
      var n := |ops| - 1;
      assert SameOpButClocks(ops[n], ops'[n]);
      ClocksDoNotMatter(cs, ops[..n], ops'[..n]);
      match ops[n]
      case Batch(uploads) => UploadClocksDoNotMatter(ApplyAll(cs, ops[..n]), uploads, ops'[n].uploads);
      case Channel(_, _, _, _) =>
    }
  }

  lemma {:induction false} UploadsGrow(cs: CacheState, uploads: seq<Upload>)
    requires WellKeyed(cs)
    ensures WellKeyed(UpsertAll(cs, uploads))
    ensures cs.updatedAt <= UpsertAll(cs, uploads).updatedAt && cs.byKey.Keys <= UpsertAll(cs, uploads).byKey.Keys
    decreases |uploads|
  {
    if uploads != [] { UploadsGrow(cs, uploads[..|uploads| - 1]); }
  }

  /** No operation removes a key or moves updatedAt back. */
  lemma {:induction false} OpsGrow(cs: CacheState, ops: seq<CacheOp>)
    requires WellKeyed(cs)
    ensures WellKeyed(ApplyAll(cs, ops))
    ensures cs.updatedAt <= ApplyAll(cs, ops).updatedAt && cs.byKey.Keys <= ApplyAll(cs, ops).byKey.Keys
    decreases |ops|
  {
    if ops != [] {
      OpsGrow(cs, ops[..|ops| - 1]);
      var mid := ApplyAll(cs, ops[..|ops| - 1]);
      match ops[|ops| - 1]
      case Batch(uploads) => UploadsGrow(mid, uploads);
      case Channel(_, _, _, _) =>
    }
  }

  // ---- Finding a device by manufacturer and serial ----

  predicate MatchesDevice(record: DeviceRecord, manufacturer: string, serial: string) {
    Normalize(record.manufacturer) == Normalize(manufacturer) && TrimSpace(record.serial) == TrimSpace(serial)
  }

  function MatchingKeys(cs: CacheState, manufacturer: string, serial: string): set<string> {
    set key | key in cs.byKey && MatchesDevice(cs.byKey[key], manufacturer, serial)
  }

  /** The fallback's answer: the one matching record, if there is exactly one. */
  ghost function FallbackIn(cs: CacheState, manufacturer: string, serial: string): Option<DeviceRecord> {
    var keys := MatchingKeys(cs, manufacturer, serial);
    if exists key :: keys == {key} then
      var key :| keys == {key};
      Some(cs.byKey[key])
    else None
  }

  /** order lists each key of the cache once, as one map iteration might. */
  ghost predicate Enumerates(order: seq<string>, keys: set<string>) {
    && (forall key :: key in order <==> key in keys)
    && (forall i, j :: 0 <= i < j < |order| ==> order[i] != order[j])
  }

  /** The matches in iteration order. */
  function MatchesAlong(cs: CacheState, order: seq<string>, manufacturer: string,
                        serial: string): (r: seq<DeviceRecord>)
    requires forall key :: key in order ==> key in cs.byKey
  {
    if order == [] then []
    else
      var init, last := order[..|order| - 1], cs.byKey[order[|order| - 1]];
      MatchesAlong(cs, init, manufacturer, serial) + (if MatchesDevice(last, manufacturer, serial) then [last] else [])
  }

  ghost function FoundAlong(cs: CacheState, order: seq<string>, manufacturer: string, serial: string): (r: set<string>)
    requires forall key :: key in order ==> key in cs.byKey
    ensures r <= cs.byKey.Keys
  {
    set key | key in order && MatchesDevice(cs.byKey[key], manufacturer, serial)
  }

  lemma FoundAppend(cs: CacheState, order: seq<string>, last: string, manufacturer: string, serial: string)
    requires last in cs.byKey && forall key :: key in order ==> key in cs.byKey
    ensures FoundAlong(cs, order + [last], manufacturer, serial)
         == FoundAlong(cs, order, manufacturer, serial)
          + (if MatchesDevice(cs.byKey[last], manufacturer, serial) then {last} else {})
    ensures last !in order ==> last !in FoundAlong(cs, order, manufacturer, serial)
  {
    hide MatchesDevice;
  }

  lemma {:induction false} MatchesCounted(cs: CacheState, order: seq<string>, manufacturer: string, serial: string)
    requires forall key :: key in order ==> key in cs.byKey
    requires forall i, j :: 0 <= i < j < |order| ==> order[i] != order[j]
    ensures |MatchesAlong(cs, order, manufacturer, serial)| == |FoundAlong(cs, order, manufacturer, serial)|
    ensures forall key :: FoundAlong(cs, order, manufacturer, serial) == {key} ==>
              MatchesAlong(cs, order, manufacturer, serial) == [cs.byKey[key]]
    decreases |order|
  {
    hide MatchesDevice, FoundAlong;
    if order == [] {
      NothingFound(cs, manufacturer, serial);
    } else {
      var init, last := order[..|order| - 1], order[|order| - 1];
      assert order == init + [last] && last !in init;
      MatchesCounted(cs, init, manufacturer, serial);
      FoundAppend(cs, init, last, manufacturer, serial);
      var found, earlier := FoundAlong(cs, order, manufacturer, serial), FoundAlong(cs, init, manufacturer, serial);
      forall key | found == {key} && key in found
        ensures MatchesAlong(cs, order, manufacturer, serial) == [cs.byKey[key]]
      {
        if MatchesDevice(cs.byKey[last], manufacturer, serial) {
          assert last in found && |earlier| == |found| - 1;
        }
      }
      assert forall key :: found == {key} ==> key in found;
    }
  }

  lemma NothingFound(cs: CacheState, manufacturer: string, serial: string)
    ensures FoundAlong(cs, [], manufacturer, serial) == {}
  {
  }

  /** Whatever order the map is walked in, taking the match list when it has one element
      gives the fallback's answer. */
  lemma FallbackIgnoresOrder(cs: CacheState, order: seq<string>, manufacturer: string, serial: string)
    requires Enumerates(order, cs.byKey.Keys)
    ensures var found := MatchesAlong(cs, order, manufacturer, serial);
            FallbackIn(cs, manufacturer, serial) == if |found| == 1 then Some(found[0]) else None
  {
    var keys := MatchingKeys(cs, manufacturer, serial);
    MatchesCounted(cs, order, manufacturer, serial);
    assert keys == FoundAlong(cs, order, manufacturer, serial);
    if |keys| == 1 {
      var key :| key in keys;
      assert |keys - {key}| == 0;
      assert keys == {key};
    }
  }

  /** The fallback finds a record exactly when one cached key matches, and it is a match. */
  lemma FallbackFindsTheOne(cs: CacheState, manufacturer: string, serial: string)
    ensures FallbackIn(cs, manufacturer, serial).Some? <==> |MatchingKeys(cs, manufacturer, serial)| == 1
    ensures FallbackIn(cs, manufacturer, serial).Some? ==>
              var r := FallbackIn(cs, manufacturer, serial).value;
              MatchesDevice(r, manufacturer, serial) && exists key :: key in cs.byKey && cs.byKey[key] == r
  {
    var keys := MatchingKeys(cs, manufacturer, serial);
    if |keys| == 1 {
      var key :| key in keys;
      assert |keys - {key}| == 0;
      assert keys == {key};
    }
    if FallbackIn(cs, manufacturer, serial).Some? {
      var key :| keys == {key};
      assert key in keys;
    }
  }

  // ---- The class ----

  class DeviceCache {
    var byKey: map<string, DeviceRecord>
    var updatedAt: int

    function State(): CacheState
      reads this
    {
      CacheState(byKey, updatedAt)
    }

    constructor ()
      ensures State() == EMPTY_CACHE
    {
      byKey, updatedAt := map[], 0;
    }

    method UpsertMany(uploads: seq<Upload>)
      modifies this
      ensures State() == UpsertAll(old(State()), uploads)
    {
      for i := 0 to |uploads|
        invariant State() == UpsertAll(old(State()), uploads[..i])
      {
        var record := uploads[i].record;
        if record.updatedAt == 0 {
          record := record.(updatedAt := uploads[i].now);
        }
        byKey := byKey[Key(record.manufacturer, record.model, record.serial) := record];
        if record.updatedAt > updatedAt {
          updatedAt := record.updatedAt;
        }
        assert uploads[..i + 1][..i] == uploads[..i];
      }
      assert uploads[..|uploads|] == uploads;
    }

    method Lookup(manufacturer: string, model: string, serial: string) returns (r: Option<DeviceRecord>)
      ensures r == LookupIn(State(), manufacturer, model, serial)
    {
      var key := Key(manufacturer, model, serial);
      r := if key in byKey then Some(byKey[key]) else None;
    }

    /** UpsertChannelMapping, with its scan for the first entry of the tag. */
    method UpsertChannelMapping(manufacturer: string, model: string, serial: string, mapping: ChannelMapping)
      returns (r: Option<DeviceRecord>)
      modifies this`byKey
      ensures var key := Key(manufacturer, model, serial);
              && State() == PutChannel(old(State()), key, mapping)
              && r == LookupIn(State(), manufacturer, model, serial)
    {
      var cacheKey := Key(manufacturer, model, serial);
      if cacheKey !in byKey {
        return None;
      }
      var record := byKey[cacheKey];
      var list := record.channels;
      var i := 0;
      while i < |list|
        invariant i <= |list|
        invariant forall j :: 0 <= j < i ==> Normalize(list[j].tag) != Normalize(mapping.tag)
      {
        if Normalize(list[i].tag) == Normalize(mapping.tag) {
          PutReplaces(list, i, mapping);
          record := record.(channels := list[i := mapping]);
          byKey := byKey[cacheKey := record];
          return Some(record);
        }
        i := i + 1;
      }
      PutAppends(list, mapping);
      record := record.(channels := list + [mapping]);
      byKey := byKey[cacheKey := record];
      return Some(record);
    }

    /** What other goroutines do to the cache while one of them is between two of its own calls. */
    method Meanwhile(ops: seq<CacheOp>)
      modifies this
      ensures State() == ApplyAll(old(State()), ops)
    {
      for i := 0 to |ops|
        invariant State() == ApplyAll(old(State()), ops[..i])
      {
        assert ops[..i + 1][..i] == ops[..i];
        match ops[i]
        case Batch(uploads) => UpsertMany(uploads);
        case Channel(m, mo, s, mapping) =>
          var _ := UpsertChannelMapping(m, mo, s, mapping);
      }
      assert ops[..|ops|] == ops;
    }

    /** FindByManufacturerAndSerial: the map is walked in an arbitrary order, which the ghost
        result names. */
    method FindByManufacturerAndSerial(manufacturer: string, serial: string)
      returns (matches: seq<DeviceRecord>, ghost order: seq<string>)
      ensures Enumerates(order, byKey.Keys)
      ensures matches == MatchesAlong(State(), order, manufacturer, serial)
    {
      matches, order := [], [];
      var rest := byKey.Keys;
      while rest != {}
        invariant rest <= byKey.Keys
        invariant Enumerates(order, byKey.Keys - rest)
        invariant matches == MatchesAlong(State(), order, manufacturer, serial)
        decreases |rest|
      {
        var key :| key in rest;
        var record := byKey[key];
        if MatchesDevice(record, manufacturer, serial) {
          matches := matches + [record];
        }
        assert (order + [key])[..|order|] == order;
        assert key !in order;
        order := order + [key];
        rest := rest - {key};
      }
    }
  }
}
