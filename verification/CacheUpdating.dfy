/** The one error of ensureChannels that is not the server's: a created channel whose cache
    entry is not there. It hangs on the bars of the records stored under the device's key. */
module CacheUpdating {
  import opened Basics
  import opened AsciiText
  import opened ChannelMappings
  import opened DeviceCaching
  import opened ParserRegistry
  import opened TelemetryBuilding
  import opened ChannelEnsuring
  import opened KeyCuts

  /** The bars of manufacturer and model together. */
  function PairBars(record: DeviceRecord): nat {
    Bars(record.manufacturer) + Bars(record.model)
  }

  /** A record stored under the key of a request is addressed there again, by its own
      manufacturer and model and the request's serial, exactly when it has the request's bars. */
  lemma NamesOwnKeyIff(stored: DeviceRecord, manufacturer: string, model: string, serial: string)
    requires OwnKey(stored) == Key(manufacturer, model, serial)
    ensures Key(stored.manufacturer, stored.model, serial) == OwnKey(stored) <==>
              Bars(manufacturer) + Bars(model) == PairBars(stored)
    ensures Key(stored.manufacturer, stored.model, serial) == OwnKey(stored) <==>
              TrimSpace(stored.serial) == TrimSpace(serial)
  {
    var asked := Normalize(manufacturer) + SEPARATOR + Normalize(model);
    var own := Normalize(stored.manufacturer) + SEPARATOR + Normalize(stored.model);
    KeyTellsSerialIff(manufacturer, model, serial, stored.manufacturer, stored.model, stored.serial);
    SamePrefix(own, TrimSpace(serial), TrimSpace(stored.serial));
    SameSuffix(asked, own, TrimSpace(serial));
  }

  /** For a looked-up record, the upsert goes to that record's own entry exactly when the
      request and the record have as many bars in manufacturer and model. */
  lemma UpsertHitsOwnEntryIff(cs: CacheState, manufacturer: string, model: string, serial: string, record: DeviceRecord)
    requires WellKeyed(cs) && LookupIn(cs, manufacturer, model, serial) == Some(record)
    ensures Key(record.manufacturer, record.model, serial) == OwnKey(record) <==>
              Bars(manufacturer) + Bars(model) == Bars(record.manufacturer) + Bars(record.model)
  {
    NamesOwnKeyIff(record, manufacturer, model, serial);
  }

  /** A record that Lookup or the fallback returned names a key that is in the cache: its own
      and the upload's serial. */
  lemma FoundNamesCachedKey(cs: CacheState, manufacturer: string, model: string, serial: string, record: DeviceRecord)
    requires WellKeyed(cs)
    requires FallbackIn(cs, manufacturer, serial) == Some(record) ||
             (LookupIn(cs, manufacturer, model, serial) == Some(record)
              && Bars(manufacturer) + Bars(model) == Bars(record.manufacturer) + Bars(record.model))
    ensures Key(record.manufacturer, record.model, serial) in cs.byKey
    ensures cs.byKey[Key(record.manufacturer, record.model, serial)] == record
    ensures TrimSpace(record.serial) == TrimSpace(serial)
  {
    if LookupIn(cs, manufacturer, model, serial) == Some(record)
       && Bars(manufacturer) + Bars(model) == Bars(record.manufacturer) + Bars(record.model) {
      KeyTellsSerialIff(manufacturer, model, serial, record.manufacturer, record.model, record.serial);
    } else {
      FallbackFindsTheOne(cs, manufacturer, serial);
    }
  }

  // ---- The update cannot fail while the key's records keep their bars ----

  /** The key has a record, with this many bars. */
  ghost predicate HasBars(cs: CacheState, key: string, bars: nat) {
    key in cs.byKey && PairBars(cs.byKey[key]) == bars
  }

  /** Uploads under the key have this many bars; others are free. */
  ghost predicate UploadsHaveBars(uploads: seq<Upload>, key: string, bars: nat) {
    forall i :: 0 <= i < |uploads| && OwnKey(uploads[i].record) == key ==> PairBars(uploads[i].record) == bars
  }

  ghost predicate OpsHaveBars(ops: seq<CacheOp>, key: string, bars: nat) {
    forall i :: 0 <= i < |ops| && ops[i].Batch? ==> UploadsHaveBars(ops[i].uploads, key, bars)
  }

  ghost predicate AllHaveBars(between: seq<seq<CacheOp>>, key: string, bars: nat) {
    forall i :: 0 <= i < |between| ==> OpsHaveBars(between[i], key, bars)
  }

  lemma {:induction false} UploadsKeepBars(cs: CacheState, uploads: seq<Upload>, key: string, bars: nat)
    requires HasBars(cs, key, bars) && UploadsHaveBars(uploads, key, bars)
    ensures HasBars(UpsertAll(cs, uploads), key, bars)
    decreases |uploads|
  {
    hide Key, Bars;
    if uploads != [] { UploadsKeepBars(cs, uploads[..|uploads| - 1], key, bars); }
  }

  lemma {:induction false} OpsKeepBars(cs: CacheState, ops: seq<CacheOp>, key: string, bars: nat)
    requires HasBars(cs, key, bars) && OpsHaveBars(ops, key, bars)
    ensures HasBars(ApplyAll(cs, ops), key, bars)
    decreases |ops|
  {
    hide Key, Bars;
    if ops != [] {
      var init, last := ops[..|ops| - 1], ops[|ops| - 1];
      OpsKeepBars(cs, init, key, bars);
      match last
      case Batch(uploads) => UploadsKeepBars(ApplyAll(cs, init), uploads, key, bars);
      case Channel(_, _, _, _) =>
    }
  }

  lemma PutChannelKeeps(cs: CacheState, key: string, mapping: ChannelMapping, bars: nat)
    requires WellKeyed(cs) && HasBars(cs, key, bars)
    ensures WellKeyed(PutChannel(cs, key, mapping)) && HasBars(PutChannel(cs, key, mapping), key, bars)
  {
  }

  /** The "update cache with new channel mapping" error is unreachable whatever uploads and
      channel upserts interleave, refreshes of the device included, as long as the records
      stored under the device's key have as many bars as the record in hand. Other devices'
      records may have any. */
  lemma {:induction false} CacheUpdateCannotFail(cs: CacheState, record: DeviceRecord, ms: seq<Measurement>,
                                                 serial: string, answers: seq<Answer>, between: seq<seq<CacheOp>>)
    requires |answers| == |between| == |ms| && WellKeyed(cs)
    requires var key := Key(record.manufacturer, record.model, serial);
             HasBars(cs, key, PairBars(record)) && AllHaveBars(between, key, PairBars(record))
    ensures Ensure(cs, record, ms, serial, answers, between).result != Err(CacheUpdateFailed)
    decreases |ms|
  {
    hide Key, Bars, Normalize, TrimSpace, RequestFor, MappingOf;
    if ms != [] {
      var key := Key(record.manufacturer, record.model, serial);
      var now := ApplyAll(cs, between[0]);
      OpsGrow(cs, between[0]);
      OpsKeepBars(cs, between[0], key, PairBars(record));
      assert AllHaveBars(between[1..], key, PairBars(record));
      if Resolves(record, ms[0]) || Blank(ms[0]) {
        CacheUpdateCannotFail(now, record, ms[1..], serial, answers[1..], between[1..]);
      } else if answers[0].Created? {
        var mapping := MappingOf(answers[0], RequestFor(record, ms[0]));
        var next := PutChannel(now, key, mapping);
        PutChannelKeeps(now, key, mapping, PairBars(record));
        NamesOwnKeyIff(next.byKey[key], record.manufacturer, record.model, serial);
        CacheUpdateCannotFail(next, next.byKey[key], ms[1..], serial, answers[1..], between[1..]);
      }
    }
  }

  // ---- Exactly when the first creation fails, and exactly when it goes astray ----

  /** The first measurement that asks for a channel. */
  function FirstMissing(record: DeviceRecord, ms: seq<Measurement>): (n: nat)
    ensures n <= |ms|
    ensures n < |ms| ==> !Resolves(record, ms[n]) && !Blank(ms[n])
    ensures forall i :: 0 <= i < n ==> Resolves(record, ms[i]) || Blank(ms[i])
  {
    if ms == [] || (!Resolves(record, ms[0]) && !Blank(ms[0])) then 0
    else
      var n := FirstMissing(record, ms[1..]);
      assert forall i :: 1 <= i < n + 1 ==> ms[i] == ms[1..][i - 1];
      n + 1
  }

  /** The cache after what others do in a series of gaps. */
  function CacheThrough(cs: CacheState, gaps: seq<seq<CacheOp>>): CacheState
    decreases |gaps|
  {
    if gaps == [] then cs else CacheThrough(ApplyAll(cs, gaps[0]), gaps[1..])
  }

  lemma {:induction false} ThroughGrows(cs: CacheState, gaps: seq<seq<CacheOp>>)
    requires WellKeyed(cs)
    ensures WellKeyed(CacheThrough(cs, gaps)) && cs.byKey.Keys <= CacheThrough(cs, gaps).byKey.Keys
    decreases |gaps|
  {
    if gaps != [] {
      OpsGrow(cs, gaps[0]);
      ThroughGrows(ApplyAll(cs, gaps[0]), gaps[1..]);
    }
  }

  lemma {:induction false} SkipsToFirst(cs: CacheState, record: DeviceRecord, ms: seq<Measurement>, serial: string,
                                        answers: seq<Answer>, between: seq<seq<CacheOp>>)
    requires |answers| == |between| == |ms|
    requires FirstMissing(record, ms) < |ms|
    ensures var n := FirstMissing(record, ms);
            var request := RequestFor(record, ms[n]);
            var now := CacheThrough(cs, between[..n + 1]);
            var key := Key(record.manufacturer, record.model, serial);
            answers[n].Created? ==>
              Ensure(cs, record, ms, serial, answers, between) ==
              if key !in now.byKey then Ensured(now, [request], Err(CacheUpdateFailed))
              else
                var next := PutChannel(now, key, MappingOf(answers[n], request));
                Prepend(request, Ensure(next, next.byKey[key], ms[n + 1..], serial, answers[n + 1..], between[n + 1..]))
    decreases |ms|
  {
    hide Key, Resolves, Blank, RequestFor, MappingOf;
    var n := FirstMissing(record, ms);
    if n == 0 {
      assert between[..1][1..] == [];
      assert CacheThrough(cs, between[..1]) == ApplyAll(cs, between[0]);
    } else {
      assert n - 1 == FirstMissing(record, ms[1..]);
      SkipsToFirst(ApplyAll(cs, between[0]), record, ms[1..], serial, answers[1..], between[1..]);
      assert between[..n + 1][1..] == between[1..][..n];
      assert ms[1..][n..] == ms[n + 1..] && answers[1..][n..] == answers[n + 1..];
      assert between[1..][n..] == between[n + 1..];
    }
  }

  lemma {:induction false} UpdateFailureAsked(cs: CacheState, record: DeviceRecord, ms: seq<Measurement>,
                                              serial: string, answers: seq<Answer>, between: seq<seq<CacheOp>>)
    requires |answers| == |between| == |ms|
    requires Ensure(cs, record, ms, serial, answers, between).result == Err(CacheUpdateFailed)
    ensures Ensure(cs, record, ms, serial, answers, between).requests != []
    decreases |ms|
  {
    if Resolves(record, ms[0]) || Blank(ms[0]) {
      UpdateFailureAsked(ApplyAll(cs, between[0]), record, ms[1..], serial, answers[1..], between[1..]);
    }
  }

  /** The first granted creation for a looked-up record, whatever others do before it. The
      update fails exactly when the key of the record's manufacturer and model and the
      upload's serial is not in the cache, which takes a difference in bars. With that
      difference and the key in the cache, and only then, the loop goes on with a record
      stored under another key than the one it started from. */
  lemma FirstCreation(cs: CacheState, manufacturer: string, model: string, serial: string, record: DeviceRecord,
                      ms: seq<Measurement>, answers: seq<Answer>, between: seq<seq<CacheOp>>)
    requires |answers| == |between| == |ms|
    requires WellKeyed(cs) && LookupIn(cs, manufacturer, model, serial) == Some(record)
    requires FirstMissing(record, ms) < |ms| && answers[FirstMissing(record, ms)].Created?
    ensures var n := FirstMissing(record, ms);
            var e := Ensure(cs, record, ms, serial, answers, between);
            var request := RequestFor(record, ms[n]);
            var now := CacheThrough(cs, between[..n + 1]);
            var key := Key(record.manufacturer, record.model, serial);
            && e.requests != [] && e.requests[0] == request
            && (e.result == Err(CacheUpdateFailed) && |e.requests| == 1 <==> key !in now.byKey)
            && (key !in now.byKey ==> Bars(manufacturer) + Bars(model) != PairBars(record))
            && (key in now.byKey ==>
                  var next := PutChannel(now, key, MappingOf(answers[n], request));
                  var rest := Ensure(next, next.byKey[key], ms[n + 1..], serial, answers[n + 1..], between[n + 1..]);
                  && e == Prepend(request, rest)
                  && (OwnKey(next.byKey[key]) != OwnKey(record) <==>
                      Bars(manufacturer) + Bars(model) != PairBars(record)))
  {
    hide Key, Bars, RequestFor, MappingOf, FirstMissing, Ensure, CacheThrough, WellKeyed, OwnKey, LookupIn, PutChannel;
    var n := FirstMissing(record, ms);
    var now := CacheThrough(cs, between[..n + 1]);
    var key := Key(record.manufacturer, record.model, serial);
    SkipsToFirst(cs, record, ms, serial, answers, between);
    ThroughGrows(cs, between[..n + 1]);
    LookedUpKey(cs, manufacturer, model, serial, record);
    UpsertHitsOwnEntryIff(cs, manufacturer, model, serial, record);
    if key in now.byKey {
      var mapping := MappingOf(answers[n], RequestFor(record, ms[n]));
      var next := PutChannel(now, key, mapping);
      NextOwnKey(now, key, mapping);
      var rest := Ensure(next, next.byKey[key], ms[n + 1..], serial, answers[n + 1..], between[n + 1..]);
      if rest.result == Err(CacheUpdateFailed) {
        UpdateFailureAsked(next, next.byKey[key], ms[n + 1..], serial, answers[n + 1..], between[n + 1..]);
      }
    }
  }

  lemma LookedUpKey(cs: CacheState, manufacturer: string, model: string, serial: string, record: DeviceRecord)
    requires WellKeyed(cs) && LookupIn(cs, manufacturer, model, serial) == Some(record)
    ensures OwnKey(record) == Key(manufacturer, model, serial) && OwnKey(record) in cs.byKey
  {
  }

  lemma NextOwnKey(now: CacheState, key: string, mapping: ChannelMapping)
    requires WellKeyed(now) && key in now.byKey
    ensures key in PutChannel(now, key, mapping).byKey && OwnKey(PutChannel(now, key, mapping).byKey[key]) == key
  {
  }

  // ---- Exactly which serials are safe ----

  /** Nobody else at work around a single measurement. */
  const UNDISTURBED: seq<seq<CacheOp>> := [[]]

  lemma OneGap(cs: CacheState)
    ensures CacheThrough(cs, UNDISTURBED[..1]) == cs
  {
    assert UNDISTURBED[..1] == UNDISTURBED && UNDISTURBED[1..] == [];
    assert CacheThrough(cs, UNDISTURBED) == CacheThrough(ApplyAll(cs, []), []);
  }

  ghost predicate UpdateFails(cs: CacheState, record: DeviceRecord, ms: seq<Measurement>, serial: string,
                              answers: seq<Answer>, between: seq<seq<CacheOp>>)
    requires |answers| == |between| == |ms|
  {
    Ensure(cs, record, ms, serial, answers, between).result == Err(CacheUpdateFailed)
  }

  /** No record of the key, cached or uploaded later, leads away from it. */
  ghost predicate Unrivalled(manufacturer: string, model: string, serial: string) {
    forall r :: !IsRival(r, manufacturer, model, serial)
  }

  /** Then the update cannot fail, whatever anyone uploads or upserts at any time. */
  lemma {:induction false} UnrivalledCannotFail(cs: CacheState, record: DeviceRecord, ms: seq<Measurement>,
                                                manufacturer: string, model: string, serial: string,
                                                answers: seq<Answer>, between: seq<seq<CacheOp>>)
    requires |answers| == |between| == |ms| && WellKeyed(cs) && Unrivalled(manufacturer, model, serial)
    requires Key(record.manufacturer, record.model, serial) == Key(manufacturer, model, serial)
    requires Key(manufacturer, model, serial) in cs.byKey
    ensures !UpdateFails(cs, record, ms, serial, answers, between)
    decreases |ms|
  {
    hide Key, OwnKey, RequestFor, MappingOf, Resolves, Blank, WellKeyed, TrimSpace;
    if ms != [] {
      var key := Key(manufacturer, model, serial);
      var now := ApplyAll(cs, between[0]);
      OpsGrow(cs, between[0]);
      if Resolves(record, ms[0]) || Blank(ms[0]) {
        UnrivalledCannotFail(now, record, ms[1..], manufacturer, model, serial, answers[1..], between[1..]);
      } else if answers[0].Created? {
        var mapping := MappingOf(answers[0], RequestFor(record, ms[0]));
        var next := PutChannel(now, key, mapping);
        PutChannelKeeps(now, key, mapping, PairBars(now.byKey[key]));
        NextOwnKey(now, key, mapping);
        assert !IsRival(next.byKey[key], manufacturer, model, serial);
        NamesOwnKeyIff(next.byKey[key], manufacturer, model, serial);
        UnrivalledCannotFail(next, next.byKey[key], ms[1..], manufacturer, model, serial, answers[1..], between[1..]);
      }
    }
  }

  /** A name longer than every tag of a list. */
  lemma {:induction false} LongName(list: Channels) returns (n: nat)
    ensures n >= 1 && forall name :: |Normalize(name)| >= n ==> Resolve(list, name).None?
  {
    n := 1;
    if list != [] {
      var m := LongName(list[1..]);
      n := Max(m, |Normalize(list[0].tag)| + 1);
    }
  }

  function Xs(n: nat): (s: string)
    ensures |s| == n
  {
    seq(n, _ => 'x')
  }

  lemma XsAreNames(n: nat)
    requires n >= 1
    ensures Normalize(Xs(n)) == Xs(n) && TrimSpace(Xs(n)) != ""
  {
    PlainText(Xs(n));
  }

  /** A cache that holds this record alone. */
  function Alone(record: DeviceRecord): CacheState {
    CacheState(map[OwnKey(record) := record], record.updatedAt)
  }

  /** A rival cached alone fails the first creation. */
  lemma RivalFailsAtOnce(r: DeviceRecord, manufacturer: string, model: string, serial: string)
    requires IsRival(r, manufacturer, model, serial)
    ensures WellKeyed(Alone(r)) && LookupIn(Alone(r), manufacturer, model, serial) == Some(r)
    ensures exists m :: UpdateFails(Alone(r), r, [m], serial, [Created(7, "")], UNDISTURBED)
  {
    hide Key, TrimSpace, Normalize, RequestFor, MappingOf;
    var n := LongName(r.channels);
    XsAreNames(n);
    var m := Measurement(1, Xs(n), "", 0);
    assert FirstMissing(r, [m]) == 0;
    OneGap(Alone(r));
    NamesOwnKeyIff(r, manufacturer, model, serial);
    SkipsToFirst(Alone(r), r, [m], serial, [Created(7, "")], UNDISTURBED);
    assert UpdateFails(Alone(r), r, [m], serial, [Created(7, "")], UNDISTURBED);
  }

  /** A request found by key is safe: no cache, upload, answer or interleaving makes its
      creations fail in the cache. */
  ghost predicate LookupSafe(manufacturer: string, model: string, serial: string) {
    forall cs: CacheState, record: DeviceRecord, ms: seq<Measurement>, answers: seq<Answer>,
           between: seq<seq<CacheOp>> ::
      |answers| == |between| == |ms| && WellKeyed(cs) && LookupIn(cs, manufacturer, model, serial) == Some(record) ==>
        !UpdateFails(cs, record, ms, serial, answers, between)
  }

  /** The exact condition on the request alone: for every supported manufacturer and model the
      cache update is safe if and only if the serial cannot be cut at a bar into the end of a
      model and a serial. */
  lemma LookupSafeIffUncut(manufacturer: string, model: string, serial: string)
    requires Supported(manufacturer, model)
    ensures LookupSafe(manufacturer, model, serial) <==> !HasSerialCut(serial)
  {
    hide Supported, HasSerialCut, HasModelCut, UpdateFails, Key, LookupIn, WellKeyed, IsRival;
    SupportedHasNoBars(manufacturer, model);
    RivalIffCut(manufacturer, model, serial);
    NoBarNoModelCut(model);
    if HasSerialCut(serial) {
      var r :| IsRival(r, manufacturer, model, serial);
      RivalFailsAtOnce(r, manufacturer, model, serial);
      var m :| UpdateFails(Alone(r), r, [m], serial, [Created(7, "")], UNDISTURBED);
      assert !LookupSafe(manufacturer, model, serial);
    } else {
      forall cs: CacheState, record: DeviceRecord, ms: seq<Measurement>, answers: seq<Answer>,
             between: seq<seq<CacheOp>>
        | |answers| == |between| == |ms| && WellKeyed(cs) && LookupIn(cs, manufacturer, model, serial) == Some(record)
        ensures !UpdateFails(cs, record, ms, serial, answers, between)
      {
        LookedUpNamesKey(cs, manufacturer, model, serial, record);
        UnrivalledCannotFail(cs, record, ms, manufacturer, model, serial, answers, between);
      }
    }
  }

  lemma LookedUpNamesKey(cs: CacheState, manufacturer: string, model: string, serial: string, record: DeviceRecord)
    requires WellKeyed(cs) && LookupIn(cs, manufacturer, model, serial) == Some(record)
    requires Unrivalled(manufacturer, model, serial)
    ensures Key(record.manufacturer, record.model, serial) == Key(manufacturer, model, serial)
    ensures Key(manufacturer, model, serial) in cs.byKey && TrimSpace(record.serial) == TrimSpace(serial)
  {
    hide Key, TrimSpace;
    assert !IsRival(record, manufacturer, model, serial);
    NamesOwnKeyIff(record, manufacturer, model, serial);
  }

  /** A record in hand that is cached where its creations go is safe there. */
  ghost predicate EntrySafe(record: DeviceRecord, serial: string) {
    forall cs: CacheState, ms: seq<Measurement>, answers: seq<Answer>, between: seq<seq<CacheOp>> ::
      && |answers| == |between| == |ms| && WellKeyed(cs)
      && OwnKey(record) in cs.byKey && cs.byKey[OwnKey(record)] == record ==>
        !UpdateFails(cs, record, ms, serial, answers, between)
  }

  /** A rival uploaded before the first creation fails the second. */
  lemma RivalFailsNext(record: DeviceRecord, serial: string, r: DeviceRecord)
    requires IsRival(r, record.manufacturer, record.model, serial) && r.channels == [] && r.updatedAt == 1
    requires TrimSpace(record.serial) == TrimSpace(serial)
    ensures WellKeyed(Alone(record)) && !EntrySafe(record, serial)
  {
    hide Key, TrimSpace, Normalize, RequestFor, WellKeyed;
    var n := LongName(record.channels);
    XsAreNames(n);
    XsAreNames(n + 1);
    var t, h := Measurement(1, Xs(n), "", 0), Measurement(2, Xs(n + 1), "", 0);
    var answers, between := [Created(7, Xs(n)), Created(8, Xs(n + 1))], [[Batch([Upload(r, 0)])], []];
    var cs, key := Alone(record), OwnKey(record);
    OwnKeyOf(record, serial);
    RivalUploaded(cs, key, r);
    var now := ApplyAll(cs, between[0]);
    var mapping := MappingOf(answers[0], RequestFor(record, t));
    var next := PutChannel(now, key, mapping);
    assert next.byKey == map[key := WithChannel(r, mapping)];
    assert mapping.tag == Xs(n) && next.byKey[key].channels == [mapping];
    assert [mapping][1..] == [] && Resolve([], Xs(n + 1)).None?;
    assert Resolve([mapping], Xs(n + 1)).None?;
    NamesOwnKeyIff(r, record.manufacturer, record.model, serial);
    assert ApplyAll(next, []) == next;
    assert [t, h][1..] == [h] && answers[1..] == [answers[1]] && between[1..] == [[]];
    SecondFails(next, next.byKey[key], h, serial, answers[1]);
    assert UpdateFails(cs, record, [t, h], serial, answers, between);
    AloneIsKeyed(record);
  }

  lemma OwnKeyOf(record: DeviceRecord, serial: string)
    requires TrimSpace(record.serial) == TrimSpace(serial)
    ensures OwnKey(record) == Key(record.manufacturer, record.model, serial)
  {
  }

  lemma AloneIsKeyed(record: DeviceRecord)
    ensures WellKeyed(Alone(record))
  {
  }

  lemma RivalUploaded(cs: CacheState, key: string, r: DeviceRecord)
    requires OwnKey(r) == key && r.updatedAt == 1 && cs.byKey.Keys == {key}
    ensures ApplyAll(cs, [Batch([Upload(r, 0)])]).byKey == map[key := r]
  {
    hide Key;
    var ops, uploads := [Batch([Upload(r, 0)])], [Upload(r, 0)];
    assert ops[..0] == [] && ApplyAll(cs, []) == cs;
    assert uploads[..0] == [] && UpsertAll(cs, []) == cs;
  }

  lemma SecondFails(cs: CacheState, record: DeviceRecord, m: Measurement, serial: string, answer: Answer)
    requires !Resolves(record, m) && !Blank(m) && answer.Created?
    requires Key(record.manufacturer, record.model, serial) !in cs.byKey
    ensures UpdateFails(cs, record, [m], serial, [answer], [[]])
  {
    assert ApplyAll(cs, []) == cs;
  }

  /** The exact condition for a record that carries the request's serial and a manufacturer
      without bars, as one the fallback found does: its creations are safe in every cache and
      under every interleaving if and only if neither the serial nor its model can be cut. */
  lemma EntrySafeIffUncut(record: DeviceRecord, serial: string)
    requires Bars(record.manufacturer) == 0 && TrimSpace(record.serial) == TrimSpace(serial)
    ensures EntrySafe(record, serial) <==> !HasSerialCut(serial) && !HasModelCut(record.model)
  {
    hide SerialCut, ModelCut, UpdateFails, Key, WellKeyed, IsRival, TrimSpace;
    RivalIffCut(record.manufacturer, record.model, serial);
    if HasSerialCut(serial) {
      var i :| 0 <= i < |TrimSpace(serial)| && SerialCut(serial, i);
      var r := RivalOfSerialCut(record.manufacturer, record.model, serial, i);
      RivalFailsNext(record, serial, r);
    } else if HasModelCut(record.model) {
      var i :| 0 <= i < |Normalize(record.model)| && ModelCut(record.model, i);
      var r := RivalOfModelCut(record.manufacturer, record.model, serial, i);
      RivalFailsNext(record, serial, r);
    } else {
      OwnKeyOf(record, serial);
      forall cs: CacheState, ms: seq<Measurement>, answers: seq<Answer>, between: seq<seq<CacheOp>>
        | && |answers| == |between| == |ms| && WellKeyed(cs)
          && OwnKey(record) in cs.byKey && cs.byKey[OwnKey(record)] == record
        ensures !UpdateFails(cs, record, ms, serial, answers, between)
      {
        UnrivalledCannotFail(cs, record, ms, record.manufacturer, record.model, serial, answers, between);
      }
    }
  }

  // ---- Both happen ----

  const BARRED_DEVICE: DeviceRecord := DeviceRecord(1, 2, None, "d", "comet", "uxxxxm|x", [], 5)
  const NAMESAKE: DeviceRecord := DeviceRecord(3, 4, None, "x|d", "comet", "uxxxxm|x", [], 6)

  lemma PlainParts()
    ensures Normalize("comet") == "comet" && Normalize("uxxxxm") == "uxxxxm" && Normalize("uxxxxm|x") == "uxxxxm|x"
    ensures TrimSpace("d") == "d" && TrimSpace("x|d") == "x|d"
  {
    hide TrimSpace, ToLower;
    PlainText("comet");
    PlainText("uxxxxm");
    PlainText("uxxxxm|x");
    PlainText("d");
    PlainText("x|d");
  }

  lemma BarredKeys()
    ensures OwnKey(BARRED_DEVICE) == Key("comet", "uxxxxm", "x|d") == "comet|uxxxxm|x|d"
    ensures OwnKey(NAMESAKE) == Key("comet", "uxxxxm|x", "x|d") == "comet|uxxxxm|x|x|d"
    ensures OwnKey(BARRED_DEVICE) != OwnKey(NAMESAKE)
  {
    hide TrimSpace, Normalize;
    PlainParts();
    assert |"comet|uxxxxm|x|d"| != |"comet|uxxxxm|x|x|d"|;
  }

  lemma MissingT()
    ensures var m := Measurement(1, "t", "", 0);
            !Resolves(BARRED_DEVICE, m) && !Blank(m) && FirstMissing(BARRED_DEVICE, [m]) == 0
  {
    PlainText("t");
  }

  /** The failure is reachable for a supported request: a device of model "uxxxxm|x" with
      serial "d" answers a request of model "uxxxxm" with serial "x|d", and its new channel
      then finds no entry. */
  lemma BarsReachCacheUpdateFailure(answer: Answer)
    requires answer.Created?
    ensures var cs := UpsertOne(EMPTY_CACHE, BARRED_DEVICE, 0);
            var m := Measurement(1, "t", "", 0);
            && Supported("comet", "uxxxxm")
            && LookupIn(cs, "comet", "uxxxxm", "x|d") == Some(BARRED_DEVICE)
            && Ensure(cs, BARRED_DEVICE, [m], "x|d", [answer], UNDISTURBED).result == Err(CacheUpdateFailed)
  {
    hide Key, Supported, RequestFor, MappingOf, Resolves, Blank;
    ULoggerIsSupported();
    BarredKeys();
    MissingT();
    var cs := UpsertOne(EMPTY_CACHE, BARRED_DEVICE, 0);
    OneGap(cs);
    SkipsToFirst(cs, BARRED_DEVICE, [Measurement(1, "t", "", 0)], "x|d", [answer], UNDISTURBED);
  }

  const SECOND_NAMESAKE: DeviceRecord := DeviceRecord(5, 6, None, "d", "comet", "uxxxxm|x|x", [], 7)

  lemma SecondKeys()
    ensures OwnKey(SECOND_NAMESAKE) == Key("comet", "uxxxxm|x", "x|d") == "comet|uxxxxm|x|x|d"
    ensures Key("comet", "uxxxxm|x|x", "x|d") == "comet|uxxxxm|x|x|x|d"
    ensures "comet|uxxxxm|x|x|x|d" !in {"comet|uxxxxm|x|d", "comet|uxxxxm|x|x|d"}
  {
    hide TrimSpace, Normalize;
    PlainParts();
    PlainText("uxxxxm|x|x");
    assert |"comet|uxxxxm|x|x|x|d"| > |"comet|uxxxxm|x|x|d"| > |"comet|uxxxxm|x|d"|;
  }

  /** The first creation may succeed and a later one fail: the key the first one writes to is
      that of a third device, whose record then leads to a key that is not cached. */
  lemma BarsFailSecondCreation(first: UInt64, second: UInt64)
    ensures var cs := UpsertOne(UpsertOne(EMPTY_CACHE, BARRED_DEVICE, 0), SECOND_NAMESAKE, 0);
            var t, h := Measurement(1, "t", "", 0), Measurement(2, "h", "", 0);
            var e := Ensure(cs, BARRED_DEVICE, [t, h], "x|d", [Created(first, "t"), Created(second, "h")], [[], []]);
            && Supported("comet", "uxxxxm")
            && LookupIn(cs, "comet", "uxxxxm", "x|d") == Some(BARRED_DEVICE)
            && e.result == Err(CacheUpdateFailed) && |e.requests| == 2
  {
    hide Key, Supported, Resolve;
    ULoggerIsSupported();
    BarredKeys();
    SecondKeys();
    PlainText("t");
    PlainText("h");
    var t, h := Measurement(1, "t", "", 0), Measurement(2, "h", "", 0);
    var answers := [Created(first, "t"), Created(second, "h")];
    var cs := UpsertOne(UpsertOne(EMPTY_CACHE, BARRED_DEVICE, 0), SECOND_NAMESAKE, 0);
    EmptyResolvesNothing("t");
    EmptyResolvesNothing("h");
    var mapping := ChannelMapping(first, "t");
    var key := OwnKey(SECOND_NAMESAKE);
    var next := PutChannel(cs, key, mapping);
    assert MappingOf(answers[0], RequestFor(BARRED_DEVICE, t)) == mapping;
    assert next.byKey[key].channels == [mapping];
    PutObserved([], mapping, "h");
    assert ApplyAll(cs, []) == cs;
    var between: seq<seq<CacheOp>> := [[], []];
    assert between[1..] == [[]];
    var rest := Ensure(next, next.byKey[key], [h], "x|d", [answers[1]], [[]]);
    SecondFails(next, next.byKey[key], h, "x|d", answers[1]);
    assert rest.requests == [RequestFor(next.byKey[key], h)];
    assert [t, h][1..] == [h] && answers[1..] == [answers[1]];
    assert Ensure(cs, BARRED_DEVICE, [t, h], "x|d", answers, between) == Prepend(RequestFor(BARRED_DEVICE, t), rest);
  }

  lemma EmptyResolvesNothing(tag: string)
    ensures Resolve([], tag).None?
  {
  }

  /** So is the other outcome: with a second device of that model whose serial is "x|d" in the
      cache, the channel is created for the first device's deployment, the mapping goes to the
      second one, and the sample is sent under the second one's deployment. */
  lemma BarsReachOtherDevice(channelID: UInt64)
    ensures var cs := UpsertOne(UpsertOne(EMPTY_CACHE, BARRED_DEVICE, 0), NAMESAKE, 0);
            var m := Measurement(1, "t", "", 0);
            var e := Ensure(cs, BARRED_DEVICE, [m], "x|d", [Created(channelID, "t")], UNDISTURBED);
            && Supported("comet", "uxxxxm")
            && LookupIn(cs, "comet", "uxxxxm", "x|d") == Some(BARRED_DEVICE)
            && e.requests == [RequestFor(BARRED_DEVICE, m)] && e.requests[0].deploymentID == BARRED_DEVICE.deploymentID
            && e.result == Ok(WithChannel(NAMESAKE, ChannelMapping(channelID, "t")))
            && Built(e.result.value, ParseResult("x|d", 0, [m], None, None)).Ok?
            && Built(e.result.value, ParseResult("x|d", 0, [m], None, None)).value.deploymentID == NAMESAKE.deploymentID
  {
    hide Key, Supported, Resolve;
    ULoggerIsSupported();
    BarredKeys();
    MissingT();
    PlainText("t");
    var m := Measurement(1, "t", "", 0);
    var cs := UpsertOne(UpsertOne(EMPTY_CACHE, BARRED_DEVICE, 0), NAMESAKE, 0);
    OneGap(cs);
    var answer := Created(channelID, "t");
    SkipsToFirst(cs, BARRED_DEVICE, [m], "x|d", [answer], UNDISTURBED);
    assert MappingOf(answer, RequestFor(BARRED_DEVICE, m)) == ChannelMapping(channelID, "t");
    var last := WithChannel(NAMESAKE, ChannelMapping(channelID, "t"));
    assert last.channels == [ChannelMapping(channelID, "t")];
    PutObserved([], ChannelMapping(channelID, "t"), "t");
    assert Resolves(last, m);
    assert [m][1..] == [] && [answer][1..] == [];
  }
}
