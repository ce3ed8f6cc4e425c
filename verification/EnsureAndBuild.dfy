/** From ensureChannels to BuildTelemetry: what a successful creation loop guarantees of the
    record it returns, with the device refreshed in between or not. */
module EnsureAndBuild {
  import opened Basics
  import opened AsciiText
  import opened ChannelMappings
  import opened DeviceCaching
  import opened TelemetryBuilding
  import opened ChannelEnsuring

  function Tags(record: DeviceRecord): set<string> {
    TagMap(record.channels).Keys
  }

  // ---- Harmless refreshes ----

  /** The creation loop addresses the record's entry by this key. */
  predicate Names(record: DeviceRecord, key: string, serial: string) {
    Key(record.manufacturer, record.model, serial) == key
  }

  /** The cached device names its key again and has at least the tags of the record in hand. */
  ghost predicate Holds(cs: CacheState, key: string, serial: string, record: DeviceRecord) {
    key in cs.byKey && Names(cs.byKey[key], key, serial) && Tags(record) <= Tags(cs.byKey[key])
  }

  /** Every upload for the key names it again with this serial and has at least the tags
      cached there at that moment. */
  ghost predicate UploadsKeepTags(cs: CacheState, uploads: seq<Upload>, key: string, serial: string)
    decreases |uploads|
  {
    uploads != [] ==>
      var before, last := UpsertAll(cs, uploads[..|uploads| - 1]), uploads[|uploads| - 1].record;
      && UploadsKeepTags(cs, uploads[..|uploads| - 1], key, serial)
      && (OwnKey(last) == key ==>
            Names(last, key, serial) && (key in before.byKey ==> Tags(before.byKey[key]) <= Tags(last)))
  }

  ghost predicate OpsKeepTags(cs: CacheState, ops: seq<CacheOp>, key: string, serial: string)
    decreases |ops|
  {
    ops != [] ==>
      var init, last := ops[..|ops| - 1], ops[|ops| - 1];
      && OpsKeepTags(cs, init, key, serial)
      && (last.Batch? ==> UploadsKeepTags(ApplyAll(cs, init), last.uploads, key, serial))
  }

  /** Along the whole creation loop, every refresh of the device is of that kind. */
  ghost predicate RefreshesKeepTags(cs: CacheState, record: DeviceRecord, ms: seq<Measurement>, serial: string,
                                    answers: seq<Answer>, between: seq<seq<CacheOp>>)
    requires |answers| == |between| == |ms|
    decreases |ms|
  {
    ms != [] ==>
      var key := Key(record.manufacturer, record.model, serial);
      var now := ApplyAll(cs, between[0]);
      && OpsKeepTags(cs, between[0], key, serial)
      && if Resolves(record, ms[0]) || Blank(ms[0]) then
           RefreshesKeepTags(now, record, ms[1..], serial, answers[1..], between[1..])
         else
           answers[0].Created? && key in now.byKey ==>
             var next := PutChannel(now, key, MappingOf(answers[0], RequestFor(record, ms[0])));
             RefreshesKeepTags(next, next.byKey[key], ms[1..], serial, answers[1..], between[1..])
  }

  lemma {:induction false} UploadsHold(cs: CacheState, uploads: seq<Upload>, key: string, serial: string,
                                       record: DeviceRecord)
    requires Holds(cs, key, serial, record) && UploadsKeepTags(cs, uploads, key, serial)
    ensures Holds(UpsertAll(cs, uploads), key, serial, record)
    decreases |uploads|
  {
    hide Key, TagMap;
    if uploads != [] { UploadsHold(cs, uploads[..|uploads| - 1], key, serial, record); }
  }

  lemma {:induction false} OpsHold(cs: CacheState, ops: seq<CacheOp>, key: string, serial: string, record: DeviceRecord)
    requires Holds(cs, key, serial, record) && OpsKeepTags(cs, ops, key, serial)
    ensures Holds(ApplyAll(cs, ops), key, serial, record)
    decreases |ops|
  {
    hide Key, TagMap, UpsertAll;
    if ops != [] {
      var init, last := ops[..|ops| - 1], ops[|ops| - 1];
      OpsHold(cs, init, key, serial, record);
      var mid := ApplyAll(cs, init);
      match last
      case Batch(uploads) => UploadsHold(mid, uploads, key, serial, record);
      case Channel(_, _, _, mapping) => PutIsMapUpdate(mid.byKey[key].channels, mapping);
    }
  }

  lemma {:induction false} OtherUploadsKeepTags(cs: CacheState, uploads: seq<Upload>, key: string, serial: string)
    requires forall j :: 0 <= j < |uploads| ==> OwnKey(uploads[j].record) != key
    ensures UploadsKeepTags(cs, uploads, key, serial)
    decreases |uploads|
  {
    if uploads != [] { OtherUploadsKeepTags(cs, uploads[..|uploads| - 1], key, serial); }
  }

  lemma {:induction false} NoRefreshKeepsTags(cs: CacheState, ops: seq<CacheOp>, key: string, serial: string)
    requires NoRefresh(ops, key)
    ensures OpsKeepTags(cs, ops, key, serial)
    decreases |ops|
  {
    if ops != [] {
      var init, last := ops[..|ops| - 1], ops[|ops| - 1];
      NoRefreshKeepsTags(cs, init, key, serial);
      if last.Batch? { OtherUploadsKeepTags(ApplyAll(cs, init), last.uploads, key, serial); }
    }
  }

  // ---- What a successful loop covers ----

  /** Every name an ensured record owes: it resolves, and no tag it had before is lost. */
  ghost predicate Covers(record: DeviceRecord, ensured: DeviceRecord, ms: seq<Measurement>) {
    && Tags(record) <= Tags(ensured)
    && (forall i :: 0 <= i < |ms| && !Blank(ms[i]) ==> Resolves(ensured, ms[i]))
  }

  lemma CoversFirst(record: DeviceRecord, step: DeviceRecord, ensured: DeviceRecord, ms: seq<Measurement>)
    requires ms != [] && Covers(step, ensured, ms[1..])
    requires Tags(record) <= Tags(step)
    requires Blank(ms[0]) || Resolves(step, ms[0])
    ensures Covers(record, ensured, ms)
  {
    ResolvesByTag(step, ms[0]);
    ResolvesByTag(ensured, ms[0]);
    forall i | 0 <= i < |ms| && !Blank(ms[i]) ensures Resolves(ensured, ms[i]) {
      if i > 0 { assert ms[i] == ms[1..][i - 1]; }
    }
  }

  lemma CoversNothing(record: DeviceRecord)
    ensures Covers(record, record, [])
  {
  }

  /** One creation: the stored record names the key again and has every tag of the record in
      hand and the new one. */
  lemma CreationHolds(now: CacheState, key: string, serial: string, record: DeviceRecord, m: Measurement,
                      answer: Answer)
    requires Holds(now, key, serial, record) && answer.Created?
    requires TrimSpace(answer.tag) == "" || Normalize(answer.tag) == Normalize(m.name)
    ensures var next := PutChannel(now, key, MappingOf(answer, RequestFor(record, m)));
            && key in now.byKey && key in next.byKey
            && Names(next.byKey[key], key, serial) && Holds(next, key, serial, next.byKey[key])
            && Tags(record) <= Tags(next.byKey[key])
            && Resolves(next.byKey[key], m)
  {
    var mapping := MappingOf(answer, RequestFor(record, m));
    EchoedTag(answer, record, m);
    PutIsMapUpdate(now.byKey[key].channels, mapping);
    ResolvesByTag(PutChannel(now, key, mapping).byKey[key], m);
  }

  /** As long as every refresh of this device in between keeps its tags, ensureChannels never
      fails in the cache, and when it succeeds every name that is not blank resolves in the
      record it returns; channels that other requests create meanwhile do not disturb it. */
  lemma {:induction false} EnsureCovers(cs: CacheState, record: DeviceRecord, ms: seq<Measurement>, serial: string,
                                        answers: seq<Answer>, between: seq<seq<CacheOp>>)
    requires |answers| == |between| == |ms|
    requires Holds(cs, Key(record.manufacturer, record.model, serial), serial, record)
    requires RefreshesKeepTags(cs, record, ms, serial, answers, between) && Echoes(answers, ms)
    ensures var r := Ensure(cs, record, ms, serial, answers, between).result;
            && r != Err(CacheUpdateFailed)
            && (r.Ok? ==> Covers(record, r.value, ms))
    decreases |ms|
  {
    hide Key, Covers, Holds, RequestFor, MappingOf, Resolves, Blank, OpsKeepTags;
    if ms == [] {
      CoversNothing(record);
    } else {
      var key := Key(record.manufacturer, record.model, serial);
      var now := ApplyAll(cs, between[0]);
      OpsHold(cs, between[0], key, serial, record);
      assert Echoes(answers[1..], ms[1..]);
      if Resolves(record, ms[0]) || Blank(ms[0]) {
        EnsureCovers(now, record, ms[1..], serial, answers[1..], between[1..]);
        var r := Ensure(now, record, ms[1..], serial, answers[1..], between[1..]).result;
        if r.Ok? { CoversFirst(record, record, r.value, ms); }
      } else if answers[0].Created? {
        var next := PutChannel(now, key, MappingOf(answers[0], RequestFor(record, ms[0])));
        CreationHolds(now, key, serial, record, ms[0], answers[0]);
        var step := next.byKey[key];
        EnsureCovers(next, step, ms[1..], serial, answers[1..], between[1..]);
        var r := Ensure(next, step, ms[1..], serial, answers[1..], between[1..]).result;
        if r.Ok? { CoversFirst(record, step, r.value, ms); }
      }
    }
  }

  /** A loop during which the device is never refreshed is the simplest case. */
  lemma {:induction false} NeverRefreshedKeepsTags(cs: CacheState, record: DeviceRecord, ms: seq<Measurement>,
                                                   serial: string, answers: seq<Answer>, between: seq<seq<CacheOp>>)
    requires |answers| == |between| == |ms|
    requires Tracks(cs, Key(record.manufacturer, record.model, serial), record)
    requires NeverRefreshed(between, Key(record.manufacturer, record.model, serial))
    ensures Holds(cs, Key(record.manufacturer, record.model, serial), serial, record)
    ensures RefreshesKeepTags(cs, record, ms, serial, answers, between)
    decreases |ms|
  {
    hide Key, TagMap, RequestFor, MappingOf, Resolves, Blank, NoRefresh, OpsKeepTags;
    if ms != [] {
      var key := Key(record.manufacturer, record.model, serial);
      var now := ApplyAll(cs, between[0]);
      NoRefreshKeepsTags(cs, between[0], key, serial);
      OpsKeepTracking(cs, between[0], key, record);
      assert NeverRefreshed(between[1..], key);
      if Resolves(record, ms[0]) || Blank(ms[0]) {
        NeverRefreshedKeepsTags(now, record, ms[1..], serial, answers[1..], between[1..]);
      } else if answers[0].Created? {
        var next := PutChannel(now, key, MappingOf(answers[0], RequestFor(record, ms[0])));
        NeverRefreshedKeepsTags(next, next.byKey[key], ms[1..], serial, answers[1..], between[1..]);
      }
    }
  }

  /** Without a refresh of the device the returned record is that device. */
  lemma {:induction false} EnsureKeepsIdentity(cs: CacheState, record: DeviceRecord, ms: seq<Measurement>,
                                               serial: string, answers: seq<Answer>, between: seq<seq<CacheOp>>)
    requires |answers| == |between| == |ms|
    requires Tracks(cs, Key(record.manufacturer, record.model, serial), record)
    requires NeverRefreshed(between, Key(record.manufacturer, record.model, serial))
    ensures var r := Ensure(cs, record, ms, serial, answers, between).result;
            r.Ok? ==> SameIdentity(r.value, record)
    decreases |ms|
  {
    hide Key, TagMap, RequestFor, MappingOf, Resolves, Blank, NoRefresh;
    if ms != [] {
      var key := Key(record.manufacturer, record.model, serial);
      var now := ApplyAll(cs, between[0]);
      OpsKeepTracking(cs, between[0], key, record);
      assert NeverRefreshed(between[1..], key);
      if Resolves(record, ms[0]) || Blank(ms[0]) {
        EnsureKeepsIdentity(now, record, ms[1..], serial, answers[1..], between[1..]);
      } else if answers[0].Created? {
        var next := PutChannel(now, key, MappingOf(answers[0], RequestFor(record, ms[0])));
        EnsureKeepsIdentity(next, next.byKey[key], ms[1..], serial, answers[1..], between[1..]);
      }
    }
  }

  /** Success of ensureChannels implies success of BuildTelemetry when no name is blank, with
      one series of one value for each measurement, in order, under the final record's ids. */
  lemma EnsureThenBuild(cs: CacheState, record: DeviceRecord, parsed: ParseResult, answers: seq<Answer>,
                        between: seq<seq<CacheOp>>)
    requires |answers| == |between| == |parsed.measurements|
    requires Holds(cs, Key(record.manufacturer, record.model, parsed.serial), parsed.serial, record)
    requires RefreshesKeepTags(cs, record, parsed.measurements, parsed.serial, answers, between)
    requires Echoes(answers, parsed.measurements)
    requires forall i :: 0 <= i < |parsed.measurements| ==> !Blank(parsed.measurements[i])
    ensures var r := Ensure(cs, record, parsed.measurements, parsed.serial, answers, between).result;
            r.Ok? ==>
              && Built(r.value, parsed).Ok?
              && |Built(r.value, parsed).value.channelSeries| == |parsed.measurements|
              && forall i :: 0 <= i < |parsed.measurements| ==>
                   var name := Normalize(parsed.measurements[i].name);
                   && Built(r.value, parsed).value.channelSeries[i].values == [parsed.measurements[i].value]
                   && name in TagMap(r.value.channels)
                   && Built(r.value, parsed).value.channelSeries[i].channelID == TagMap(r.value.channels)[name]
  {
    hide RefreshesKeepTags, Holds;
    var ms := parsed.measurements;
    EnsureCovers(cs, record, ms, parsed.serial, answers, between);
    var r := Ensure(cs, record, ms, parsed.serial, answers, between).result;
    if r.Ok? {
      BuiltFromCovered(r.value, parsed);
    }
  }

  lemma BuiltFromCovered(record: DeviceRecord, parsed: ParseResult)
    requires forall i :: 0 <= i < |parsed.measurements| ==> Resolves(record, parsed.measurements[i])
    ensures Built(record, parsed).Ok? && |Built(record, parsed).value.channelSeries| == |parsed.measurements|
    ensures forall i :: 0 <= i < |parsed.measurements| ==>
              var name := Normalize(parsed.measurements[i].name);
              && Built(record, parsed).value.channelSeries[i].values == [parsed.measurements[i].value]
              && name in TagMap(record.channels)
              && Built(record, parsed).value.channelSeries[i].channelID == TagMap(record.channels)[name]
  {
    forall i | 0 <= i < |parsed.measurements|
      ensures Resolves(record, parsed.measurements[i])
      ensures var name := Normalize(parsed.measurements[i].name);
              && name in TagMap(record.channels)
              && Resolve(record.channels, parsed.measurements[i].name).value == TagMap(record.channels)[name]
    {
      ResolveIsLookup(record.channels, parsed.measurements[i].name);
    }
  }

  lemma BuiltIff(record: DeviceRecord, parsed: ParseResult)
    ensures Built(record, parsed).Ok? <==>
              forall i :: 0 <= i < |parsed.measurements| ==> Resolves(record, parsed.measurements[i])
  {
  }

  // ---- Exactly when success is followed by a sample ----

  /** A creation of the loop: its measurement, the cache entry it was written into, as others
      left it, and what was written. */
  datatype Creation = Creation(at: nat, entry: DeviceRecord, mapping: ChannelMapping)

  ghost function LastCreation(cs: CacheState, record: DeviceRecord, ms: seq<Measurement>, serial: string,
                              answers: seq<Answer>, between: seq<seq<CacheOp>>): (r: Option<Creation>)
    requires |answers| == |between| == |ms|
    ensures r.Some? ==> r.value.at < |ms|
    decreases |ms|
  {
    if ms == [] then None
    else
      var now := ApplyAll(cs, between[0]);
      var key := Key(record.manufacturer, record.model, serial);
      if Resolves(record, ms[0]) || Blank(ms[0]) then
        OneLater(LastCreation(now, record, ms[1..], serial, answers[1..], between[1..]))
      else if answers[0].Refused? || key !in now.byKey then None
      else
        var mapping := MappingOf(answers[0], RequestFor(record, ms[0]));
        var next := PutChannel(now, key, mapping);
        var later := LastCreation(next, next.byKey[key], ms[1..], serial, answers[1..], between[1..]);
        if later.Some? then OneLater(later) else Some(Creation(0, now.byKey[key], mapping))
  }

  function OneLater(creation: Option<Creation>): Option<Creation> {
    if creation.None? then None else Some(creation.value.(at := creation.value.at + 1))
  }

  /** The returned record is the one the loop started from, or the entry the last creation was
      written into with its mapping; whatever comes after that creation resolves in it. */
  lemma {:induction false} ResultIsLastEntry(cs: CacheState, record: DeviceRecord, ms: seq<Measurement>,
                                             serial: string, answers: seq<Answer>, between: seq<seq<CacheOp>>)
    requires |answers| == |between| == |ms| && Echoes(answers, ms)
    requires Ensure(cs, record, ms, serial, answers, between).result.Ok?
    ensures var r := Ensure(cs, record, ms, serial, answers, between).result.value;
            var last := LastCreation(cs, record, ms, serial, answers, between);
            && (last.None? ==> r == record && forall i :: 0 <= i < |ms| ==> Resolves(r, ms[i]) || Blank(ms[i]))
            && (last.Some? ==>
                  && r == WithChannel(last.value.entry, last.value.mapping)
                  && Normalize(last.value.mapping.tag) == Normalize(ms[last.value.at].name)
                  && forall i :: last.value.at < i < |ms| ==> Resolves(r, ms[i]) || Blank(ms[i]))
    decreases |ms|
  {
    hide Key, RequestFor, MappingOf, Resolves, Blank, Normalize, WithChannel;
    if ms != [] {
      var now := ApplyAll(cs, between[0]);
      var key := Key(record.manufacturer, record.model, serial);
      assert Echoes(answers[1..], ms[1..]);
      if Resolves(record, ms[0]) || Blank(ms[0]) {
        ResultIsLastEntry(now, record, ms[1..], serial, answers[1..], between[1..]);
        assert forall i :: 0 < i < |ms| ==> ms[i] == ms[1..][i - 1];
      } else {
        EchoedTag(answers[0], record, ms[0]);
        var next := PutChannel(now, key, MappingOf(answers[0], RequestFor(record, ms[0])));
        ResultIsLastEntry(next, next.byKey[key], ms[1..], serial, answers[1..], between[1..]);
        assert forall i :: 0 < i < |ms| ==> ms[i] == ms[1..][i - 1];
      }
    }
  }

  lemma ResolvesWithChannel(entry: DeviceRecord, mapping: ChannelMapping, m: Measurement)
    ensures Resolves(WithChannel(entry, mapping), m) <==>
              Resolves(entry, m) || Normalize(m.name) == Normalize(mapping.tag)
  {
    PutObserved(entry.channels, mapping, m.name);
  }

  /** After a successful ensureChannels, whatever others and the syncer did meanwhile, the
      sample is built if and only if the entry the last creation was written into, with that
      creation's tag, resolves every earlier name and every blank one; and when nothing was
      created, if and only if the blank names resolve in the initial record. */
  lemma SampleBuiltIff(cs: CacheState, record: DeviceRecord, parsed: ParseResult, answers: seq<Answer>,
                       between: seq<seq<CacheOp>>)
    requires |answers| == |between| == |parsed.measurements| && Echoes(answers, parsed.measurements)
    requires Ensure(cs, record, parsed.measurements, parsed.serial, answers, between).result.Ok?
    ensures var ms := parsed.measurements;
            var r := Ensure(cs, record, ms, parsed.serial, answers, between).result.value;
            var last := LastCreation(cs, record, ms, parsed.serial, answers, between);
            && (last.None? ==>
                  (Built(r, parsed).Ok? <==> forall i :: 0 <= i < |ms| && Blank(ms[i]) ==> Resolves(record, ms[i])))
            && (last.Some? ==>
                  (Built(r, parsed).Ok? <==>
                   forall i :: 0 <= i < |ms| && (i < last.value.at || Blank(ms[i])) ==>
                     Resolves(last.value.entry, ms[i]) || Normalize(ms[i].name) == Normalize(last.value.mapping.tag)))
  {
    hide Key, Resolves, Blank, Normalize, Built, Ensure, LastCreation;
    var ms := parsed.measurements;
    var r := Ensure(cs, record, ms, parsed.serial, answers, between).result.value;
    var last := LastCreation(cs, record, ms, parsed.serial, answers, between);
    ResultIsLastEntry(cs, record, ms, parsed.serial, answers, between);
    BuiltIff(r, parsed);
    if last.Some? {
      forall i | 0 <= i < |ms|
        ensures Resolves(r, ms[i]) <==>
                  Resolves(last.value.entry, ms[i]) || Normalize(ms[i].name) == Normalize(last.value.mapping.tag)
      {
        ResolvesWithChannel(last.value.entry, last.value.mapping, ms[i]);
      }
    }
  }

  // ---- A refresh that takes a channel away ----

  const PLAIN_DEVICE: DeviceRecord := DeviceRecord(1, 2, None, "s", "comet", "uxxxxm", [], 5)

  /** Refreshes must keep the tags: an upload of the device as it was before the first creation
      makes the second start from a record without the first channel, so ensureChannels
      succeeds and BuildTelemetry then fails. */
  lemma RefreshUndoesCreation()
    ensures var cs := UpsertOne(EMPTY_CACHE, PLAIN_DEVICE, 0);
            var ms := [Measurement(1, "t", "", 0), Measurement(2, "h", "", 0)];
            var answers := [Created(7, "t"), Created(8, "h")];
            var e := Ensure(cs, PLAIN_DEVICE, ms, "s", answers, [[], [Batch([Upload(PLAIN_DEVICE, 0)])]]);
            && e.result.Ok? && !Resolves(e.result.value, ms[0]) && Resolves(e.result.value, ms[1])
            && Built(e.result.value, ParseResult("s", 0, ms, None, None)) == Err(UnresolvedChannel(1, "t"))
  {
    PlainText("s");
    PlainText("comet");
    PlainText("uxxxxm");
    PlainText("t");
    PlainText("h");
    var t, h := Measurement(1, "t", "", 0), Measurement(2, "h", "", 0);
    var toT, toH := Created(7, "t"), Created(8, "h");
    var key := OwnKey(PLAIN_DEVICE);
    var cs := UpsertOne(EMPTY_CACHE, PLAIN_DEVICE, 0);
    var refresh := [Batch([Upload(PLAIN_DEVICE, 0)])];
    assert Key(PLAIN_DEVICE.manufacturer, PLAIN_DEVICE.model, "s") == key;
    var withT := WithChannel(PLAIN_DEVICE, ChannelMapping(7, "t"));
    var withH := WithChannel(PLAIN_DEVICE, ChannelMapping(8, "h"));
    assert withT.channels == [ChannelMapping(7, "t")] && withH.channels == [ChannelMapping(8, "h")];
    var cs1 := PutChannel(cs, key, MappingOf(toT, RequestFor(PLAIN_DEVICE, t)));
    assert cs1.byKey[key] == withT;
    UnresolvedHere(PLAIN_DEVICE, withT, withH, t, h);
    var last := Ensure(cs1, withT, [h], "s", [toH], [refresh]);
    assert ApplyAll(cs, []) == cs;
    RefreshResets(cs1, key);
    OneCreation(cs1, withT, h, "s", toH, refresh);
    assert last.result == Ok(withH);
    var ms, answers, between := [t, h], [toT, toH], [[], refresh];
    assert ms[1..] == [h] && answers[1..] == [toH] && between[1..] == [refresh];
    assert Ensure(cs, PLAIN_DEVICE, ms, "s", answers, between) == Prepend(RequestFor(PLAIN_DEVICE, t), last);
  }

  lemma OneCreation(cs: CacheState, record: DeviceRecord, m: Measurement, serial: string, answer: Answer,
                    ops: seq<CacheOp>)
    requires !Resolves(record, m) && !Blank(m) && answer.Created?
    requires Key(record.manufacturer, record.model, serial) in ApplyAll(cs, ops).byKey
    ensures var entry := ApplyAll(cs, ops).byKey[Key(record.manufacturer, record.model, serial)];
            Ensure(cs, record, [m], serial, [answer], [ops]).result ==
              Ok(WithChannel(entry, MappingOf(answer, RequestFor(record, m))))
  {
    assert [m][1..] == [] && [answer][1..] == [] && [ops][1..] == [];
  }

  lemma UnresolvedHere(bare: DeviceRecord, withT: DeviceRecord, withH: DeviceRecord, t: Measurement, h: Measurement)
    requires t.name == "t" && h.name == "h" && Normalize("t") == "t" && Normalize("h") == "h"
    requires bare.channels == []
    requires withT.channels == [ChannelMapping(7, "t")] && withH.channels == [ChannelMapping(8, "h")]
    ensures !Resolves(bare, t) && !Resolves(withT, h) && !Resolves(withH, t) && Resolves(withH, h)
    ensures !Blank(t) && !Blank(h)
  {
    BlankNormalizesToEmpty("t");
    BlankNormalizesToEmpty("h");
    assert Resolve([], "h").None? && Resolve([], "t").None?;
    assert withT.channels[1..] == [] && withH.channels[1..] == [];
  }

  lemma RefreshResets(cs: CacheState, key: string)
    requires key == OwnKey(PLAIN_DEVICE)
    ensures var reset := ApplyAll(cs, [Batch([Upload(PLAIN_DEVICE, 0)])]);
            key in reset.byKey && reset.byKey[key] == PLAIN_DEVICE
  {
    var op := Batch([Upload(PLAIN_DEVICE, 0)]);
    assert [op][..0] == [] && ApplyAll(cs, []) == cs;
    var uploads := [Upload(PLAIN_DEVICE, 0)];
    assert uploads[..0] == [] && UpsertAll(cs, []) == cs;
  }
}
