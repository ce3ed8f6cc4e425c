/** The channel list a creation is written into, told from what happened to the device's entry:
    the refreshes that listed its channels and the upserts, by anyone, that wrote one. */
module EntryHistory {
  import opened AsciiText
  import opened ChannelMappings
  import opened DeviceCaching
  import opened TelemetryBuilding
  import opened ChannelEnsuring
  import opened EnsureAndBuild

  /** A refresh that listed the device's channels, or an upsert that wrote one. */
  datatype KeyEvent = Listed(channels: Channels) | Wrote(mapping: ChannelMapping)

  function UploadEvents(uploads: seq<Upload>, key: string): seq<KeyEvent> {
    if uploads == [] then []
    else
      var last := uploads[|uploads| - 1].record;
      UploadEvents(uploads[..|uploads| - 1], key) + (if OwnKey(last) == key then [Listed(last.channels)] else [])
  }

  function OpEvents(ops: seq<CacheOp>, key: string): seq<KeyEvent> {
    if ops == [] then []
    else
      OpEvents(ops[..|ops| - 1], key)
      + match ops[|ops| - 1]
        case Batch(uploads) => UploadEvents(uploads, key)
        case Channel(m, mo, s, mapping) => if Key(m, mo, s) == key then [Wrote(mapping)] else []
  }

  /** The list after a series of events. */
  function Replay(start: Channels, events: seq<KeyEvent>): Channels {
    if events == [] then start
    else
      match events[|events| - 1]
      case Listed(channels) => channels
      case Wrote(mapping) => Put(Replay(start, events[..|events| - 1]), mapping)
  }

  lemma {:induction false} ReplayAppend(start: Channels, first: seq<KeyEvent>, second: seq<KeyEvent>)
    ensures Replay(start, first + second) == Replay(Replay(start, first), second)
    decreases |second|
  {
    if second == [] {
      assert first + second == first;
    } else {
      assert (first + second)[..|first + second| - 1] == first + second[..|second| - 1];
      ReplayAppend(start, first, second[..|second| - 1]);
    }
  }

  lemma {:induction false} UploadsReplay(cs: CacheState, uploads: seq<Upload>, key: string)
    requires key in cs.byKey
    ensures key in UpsertAll(cs, uploads).byKey
    ensures UpsertAll(cs, uploads).byKey[key].channels == Replay(cs.byKey[key].channels, UploadEvents(uploads, key))
    decreases |uploads|
  {
    hide Key;
    if uploads != [] {
      var init, last := uploads[..|uploads| - 1], uploads[|uploads| - 1].record;
      UploadsReplay(cs, init, key);
      var events := UploadEvents(init, key);
      assert events + [] == events;
      assert (events + [Listed(last.channels)])[..|events|] == events;
    }
  }

  /** The cache keeps the device's list as the events say. */
  lemma {:induction false} OpsReplay(cs: CacheState, ops: seq<CacheOp>, key: string)
    requires key in cs.byKey
    ensures key in ApplyAll(cs, ops).byKey
    ensures ApplyAll(cs, ops).byKey[key].channels == Replay(cs.byKey[key].channels, OpEvents(ops, key))
    decreases |ops|
  {
    hide Key, UpsertAll, UploadEvents;
    if ops != [] {
      var init, last := ops[..|ops| - 1], ops[|ops| - 1];
      OpsReplay(cs, init, key);
      var mid, events := ApplyAll(cs, init), OpEvents(init, key);
      match last
      case Batch(uploads) =>
        UploadsReplay(mid, uploads, key);
        ReplayAppend(cs.byKey[key].channels, events, UploadEvents(uploads, key));
      case Channel(_, _, _, mapping) =>
        assert events + [] == events;
        assert (events + [Wrote(mapping)])[..|events|] == events;
    }
  }

  // ---- When a tag is there ----

  /** The k-th event, or the start for k == 0, provides the tag. */
  ghost predicate Gives(start: Channels, events: seq<KeyEvent>, k: nat, tag: string)
    requires k <= |events|
  {
    if k == 0 then Resolve(start, tag).Some?
    else
      match events[k - 1]
      case Listed(channels) => Resolve(channels, tag).Some?
      case Wrote(mapping) => Normalize(mapping.tag) == Normalize(tag)
  }

  /** The last list of the device, or an upsert since, has the tag. */
  ghost predicate Provided(start: Channels, events: seq<KeyEvent>, tag: string) {
    exists k :: 0 <= k <= |events| && Gives(start, events, k, tag) && forall j :: k <= j < |events| ==> events[j].Wrote?
  }

  lemma {:induction false} ReplayProvides(start: Channels, events: seq<KeyEvent>, tag: string)
    ensures Resolve(Replay(start, events), tag).Some? <==> Provided(start, events, tag)
    decreases |events|
  {
    hide Normalize, Resolve;
    var n := |events|;
    if events == [] {
      assert Gives(start, events, 0, tag) <==> Resolve(start, tag).Some?;
    } else {
      var init := events[..n - 1];
      ReplayProvides(start, init, tag);
      match events[n - 1]
      case Listed(channels) =>
        assert Gives(start, events, n, tag) <==> Resolve(channels, tag).Some?;
      case Wrote(mapping) =>
        PutObserved(Replay(start, init), mapping, tag);
        assert Gives(start, events, n, tag) <==> Normalize(mapping.tag) == Normalize(tag);
        OneMoreWrite(start, init, mapping, tag);
        assert events == init + [Wrote(mapping)];
    }
  }

  lemma OneMoreWrite(start: Channels, init: seq<KeyEvent>, mapping: ChannelMapping, tag: string)
    ensures Provided(start, init + [Wrote(mapping)], tag) <==>
              Provided(start, init, tag) || Normalize(mapping.tag) == Normalize(tag)
  {
    hide Normalize, Resolve;
    var n := |init|;
    var events := init + [Wrote(mapping)];
    forall k | 0 <= k <= n ensures Gives(start, events, k, tag) <==> Gives(start, init, k, tag) {
    }
    assert forall j :: 0 <= j < n ==> events[j] == init[j];
    if Provided(start, init, tag) {
      var k :| 0 <= k <= n && Gives(start, init, k, tag) && forall j :: k <= j < n ==> init[j].Wrote?;
      assert Gives(start, events, k, tag);
    }
    if Normalize(mapping.tag) == Normalize(tag) {
      assert Gives(start, events, n + 1, tag);
    }
    if Provided(start, events, tag) && Normalize(mapping.tag) != Normalize(tag) {
      var k :| 0 <= k <= n + 1 && Gives(start, events, k, tag) && forall j :: k <= j < n + 1 ==> events[j].Wrote?;
      assert Gives(start, init, k, tag);
      assert forall j :: k <= j < n ==> init[j] == events[j];
    }
  }

  // ---- The events of a creation loop ----

  /** Uploads under the key are for a device the loop finds there again. */
  ghost predicate RefreshesName(ops: seq<CacheOp>, key: string, serial: string) {
    forall i :: 0 <= i < |ops| && ops[i].Batch? ==> UploadsName(ops[i].uploads, key, serial)
  }

  ghost predicate UploadsName(uploads: seq<Upload>, key: string, serial: string) {
    forall j :: 0 <= j < |uploads| && OwnKey(uploads[j].record) == key ==> Names(uploads[j].record, key, serial)
  }

  ghost predicate AllName(between: seq<seq<CacheOp>>, key: string, serial: string) {
    forall i :: 0 <= i < |between| ==> RefreshesName(between[i], key, serial)
  }

  lemma {:induction false} UploadsStillName(cs: CacheState, uploads: seq<Upload>, key: string, serial: string)
    requires key in cs.byKey && Names(cs.byKey[key], key, serial) && UploadsName(uploads, key, serial)
    ensures key in UpsertAll(cs, uploads).byKey && Names(UpsertAll(cs, uploads).byKey[key], key, serial)
    decreases |uploads|
  {
    hide Key;
    if uploads != [] { UploadsStillName(cs, uploads[..|uploads| - 1], key, serial); }
  }

  lemma {:induction false} OpsStillName(cs: CacheState, ops: seq<CacheOp>, key: string, serial: string)
    requires key in cs.byKey && Names(cs.byKey[key], key, serial) && RefreshesName(ops, key, serial)
    ensures key in ApplyAll(cs, ops).byKey && Names(ApplyAll(cs, ops).byKey[key], key, serial)
    decreases |ops|
  {
    hide Key, UploadsName;
    if ops != [] {
      var init, last := ops[..|ops| - 1], ops[|ops| - 1];
      OpsStillName(cs, init, key, serial);
      match last
      case Batch(uploads) => UploadsStillName(ApplyAll(cs, init), uploads, key, serial);
      case Channel(_, _, _, _) =>
    }
  }

  /** What happens to the entry before the last creation: the gaps up to it, and the loop's own
      earlier creations. */
  ghost function EventsToLast(cs: CacheState, record: DeviceRecord, ms: seq<Measurement>, serial: string,
                              answers: seq<Answer>, between: seq<seq<CacheOp>>): seq<KeyEvent>
    requires |answers| == |between| == |ms|
    decreases |ms|
  {
    if LastCreation(cs, record, ms, serial, answers, between).None? then []
    else
      var now := ApplyAll(cs, between[0]);
      var key := Key(record.manufacturer, record.model, serial);
      var here := OpEvents(between[0], key);
      if Resolves(record, ms[0]) || Blank(ms[0]) then
        here + EventsToLast(now, record, ms[1..], serial, answers[1..], between[1..])
      else
        var mapping := MappingOf(answers[0], RequestFor(record, ms[0]));
        var next := PutChannel(now, key, mapping);
        if LastCreation(next, next.byKey[key], ms[1..], serial, answers[1..], between[1..]).None? then here
        else here + [Wrote(mapping)] + EventsToLast(next, next.byKey[key], ms[1..], serial, answers[1..], between[1..])
  }

  lemma {:induction false} EntryIsReplay(cs: CacheState, record: DeviceRecord, ms: seq<Measurement>, serial: string,
                                         answers: seq<Answer>, between: seq<seq<CacheOp>>)
    requires |answers| == |between| == |ms|
    requires LastCreation(cs, record, ms, serial, answers, between).Some?
    requires var key := Key(record.manufacturer, record.model, serial);
             key in cs.byKey && Names(cs.byKey[key], key, serial) && AllName(between, key, serial)
    ensures var key := Key(record.manufacturer, record.model, serial);
            LastCreation(cs, record, ms, serial, answers, between).value.entry.channels ==
              Replay(cs.byKey[key].channels, EventsToLast(cs, record, ms, serial, answers, between))
    decreases |ms|
  {
    hide Key, Normalize, Resolves, Blank, MappingOf, RequestFor, RefreshesName, Replay, OpEvents;
    var key := Key(record.manufacturer, record.model, serial);
    var start, here, now := cs.byKey[key].channels, OpEvents(between[0], key), ApplyAll(cs, between[0]);
    OpsReplay(cs, between[0], key);
    OpsStillName(cs, between[0], key, serial);
    assert AllName(between[1..], key, serial);
    if Resolves(record, ms[0]) || Blank(ms[0]) {
      EntryIsReplay(now, record, ms[1..], serial, answers[1..], between[1..]);
      ReplayAppend(start, here, EventsToLast(now, record, ms[1..], serial, answers[1..], between[1..]));
    } else {
      var mapping := MappingOf(answers[0], RequestFor(record, ms[0]));
      var next := PutChannel(now, key, mapping);
      if LastCreation(next, next.byKey[key], ms[1..], serial, answers[1..], between[1..]).Some? {
        var rest := EventsToLast(next, next.byKey[key], ms[1..], serial, answers[1..], between[1..]);
        EntryIsReplay(next, next.byKey[key], ms[1..], serial, answers[1..], between[1..]);
        ReplayAppend(start, here + [Wrote(mapping)], rest);
        ReplayAppend(start, here, [Wrote(mapping)]);
        OneWrite(Replay(start, here), mapping);
      }
    }
  }

  lemma OneWrite(start: Channels, mapping: ChannelMapping)
    ensures Replay(start, [Wrote(mapping)]) == Put(start, mapping)
  {
    assert [Wrote(mapping)][..0] == [];
    assert Replay(start, []) == start;
  }

  /** After a successful ensureChannels that created something, the sample is built if and only
      if every earlier name and every blank one is the last created one, or is in the list of
      the device's last refresh before that creation or in an upsert since, by anyone. Without
      such a refresh the list is the one cached at the start. */
  lemma SampleBuiltByHistory(cs: CacheState, record: DeviceRecord, parsed: ParseResult, answers: seq<Answer>,
                             between: seq<seq<CacheOp>>)
    requires |answers| == |between| == |parsed.measurements| && Echoes(answers, parsed.measurements)
    requires Ensure(cs, record, parsed.measurements, parsed.serial, answers, between).result.Ok?
    requires LastCreation(cs, record, parsed.measurements, parsed.serial, answers, between).Some?
    requires var key := Key(record.manufacturer, record.model, parsed.serial);
             key in cs.byKey && Names(cs.byKey[key], key, parsed.serial) && AllName(between, key, parsed.serial)
    ensures var ms := parsed.measurements;
            var r := Ensure(cs, record, ms, parsed.serial, answers, between).result.value;
            var at := LastCreation(cs, record, ms, parsed.serial, answers, between).value.at;
            var start := cs.byKey[Key(record.manufacturer, record.model, parsed.serial)].channels;
            var events := EventsToLast(cs, record, ms, parsed.serial, answers, between);
            Built(r, parsed).Ok? <==>
              forall i :: 0 <= i < |ms| && (i < at || Blank(ms[i])) ==>
                Provided(start, events, ms[i].name) || Normalize(ms[i].name) == Normalize(ms[at].name)
  {
    hide Key, Normalize, Resolve, Blank, Built, Ensure, LastCreation, EventsToLast, Provided, Echoes, Replay, AllName;
    var ms := parsed.measurements;
    var last := LastCreation(cs, record, ms, parsed.serial, answers, between).value;
    var start := cs.byKey[Key(record.manufacturer, record.model, parsed.serial)].channels;
    var events := EventsToLast(cs, record, ms, parsed.serial, answers, between);
    SampleBuiltIff(cs, record, parsed, answers, between);
    ResultIsLastEntry(cs, record, ms, parsed.serial, answers, between);
    EntryIsReplay(cs, record, ms, parsed.serial, answers, between);
    forall i | 0 <= i < |ms|
      ensures Resolves(last.entry, ms[i]) <==> Provided(start, events, ms[i].name)
    {
      ReplayProvides(start, events, ms[i].name);
    }
  }
}
