/** Which channels ensureChannels creates and which ids it leaves alone, with other requests
    creating channels of the same device meanwhile. */
module ExactCreation {
  import opened Basics
  import opened AsciiText
  import opened ChannelMappings
  import opened DeviceCaching
  import opened TelemetryBuilding
  import opened ChannelEnsuring
  import opened EnsureAndBuild

  // ---- The reference: first occurrences of names the record lacks ----

  /** m names a channel the record lacks, for the first time after `done`. */
  ghost predicate IsNew(record: DeviceRecord, done: seq<Measurement>, m: Measurement) {
    && !Blank(m)
    && !Resolves(record, m)
    && (forall j :: 0 <= j < |done| ==> Normalize(done[j].name) != Normalize(m.name))
  }

  /** One request for each new name, in order; every name is judged against the initial
      record and the names before it. */
  ghost function NewRequests(record: DeviceRecord, done: seq<Measurement>, ms: seq<Measurement>): seq<CreateRequest>
    decreases |ms|
  {
    if ms == [] then []
    else
      var rest := NewRequests(record, done + [ms[0]], ms[1..]);
      (if IsNew(record, done, ms[0]) then [RequestFor(record, ms[0])] else []) + rest
  }

  /** The server grants every request for a new name. */
  ghost predicate Granted(record: DeviceRecord, done: seq<Measurement>, ms: seq<Measurement>, answers: seq<Answer>)
    requires |answers| == |ms|
    decreases |ms|
  {
    ms != [] ==>
      && (IsNew(record, done, ms[0]) ==> answers[0].Created?)
      && Granted(record, done + [ms[0]], ms[1..], answers[1..])
  }

  ghost function NamesOf(ms: seq<Measurement>): set<string> {
    set i | 0 <= i < |ms| && !Blank(ms[i]) :: Normalize(ms[i].name)
  }

  /** The names of an upload that its record lacks. */
  ghost function Lacked(record: DeviceRecord, ms: seq<Measurement>): set<string> {
    NamesOf(ms) - Tags(record)
  }

  lemma NamesAppend(done: seq<Measurement>, m: Measurement)
    ensures NamesOf(done + [m]) == NamesOf(done) + (if Blank(m) then {} else {Normalize(m.name)})
  {
    var all := done + [m];
    forall name | name in NamesOf(done) ensures name in NamesOf(all) {
      var i :| 0 <= i < |done| && !Blank(done[i]) && Normalize(done[i].name) == name;
      assert all[i] == done[i];
    }
    if !Blank(m) { assert all[|done|] == m; }
    forall name | name in NamesOf(all) ensures name in NamesOf(done) || (!Blank(m) && name == Normalize(m.name)) {
      var i :| 0 <= i < |all| && !Blank(all[i]) && Normalize(all[i].name) == name;
      if i < |done| { assert all[i] == done[i]; }
    }
  }

  lemma NamedIn(done: seq<Measurement>, m: Measurement)
    requires !Blank(m)
    ensures Normalize(m.name) in NamesOf(done) <==>
              exists j :: 0 <= j < |done| && Normalize(done[j].name) == Normalize(m.name)
  {
    if exists j :: 0 <= j < |done| && Normalize(done[j].name) == Normalize(m.name) {
      var j :| 0 <= j < |done| && Normalize(done[j].name) == Normalize(m.name);
      BlankNormalizesToEmpty(m.name);
      BlankNormalizesToEmpty(done[j].name);
      assert !Blank(done[j]);
    }
  }

  lemma NewByNames(record: DeviceRecord, done: seq<Measurement>, m: Measurement)
    requires !Blank(m)
    ensures IsNew(record, done, m) <==> Normalize(m.name) !in Tags(record) && Normalize(m.name) !in NamesOf(done)
  {
    ResolvesByTag(record, m);
    NamedIn(done, m);
  }

  lemma NamedHere(ms: seq<Measurement>, i: nat)
    requires i < |ms| && !Blank(ms[i])
    ensures Normalize(ms[i].name) in NamesOf(ms)
  {
  }

  // ---- Whatever others create: nothing that is not missing, nothing twice ----

  ghost predicate Subsequence(s: seq<CreateRequest>, t: seq<CreateRequest>)
    decreases |t|
  {
    s == [] || (t != [] && ((s[0] == t[0] && Subsequence(s[1..], t[1..])) || Subsequence(s, t[1..])))
  }

  lemma EmptyIsSubsequence(t: seq<CreateRequest>)
    ensures Subsequence([], t)
  {
  }

  lemma SkipOne(s: seq<CreateRequest>, x: CreateRequest, t: seq<CreateRequest>)
    requires Subsequence(s, t)
    ensures Subsequence(s, [x] + t)
  {
    assert ([x] + t)[1..] == t;
  }

  lemma TakeOne(s: seq<CreateRequest>, x: CreateRequest, t: seq<CreateRequest>)
    requires Subsequence(s, t)
    ensures Subsequence([x] + s, [x] + t)
  {
    assert ([x] + t)[1..] == t && ([x] + s)[1..] == s;
  }

  /** current is the record with at least the names of `done` added. */
  ghost predicate Grown(record: DeviceRecord, current: DeviceRecord, done: seq<Measurement>) {
    && SameIdentity(current, record)
    && Tags(record) <= Tags(current)
    && NamesOf(done) <= Tags(current)
  }

  lemma GrownAsksNew(record: DeviceRecord, current: DeviceRecord, done: seq<Measurement>, m: Measurement)
    requires Grown(record, current, done)
    ensures !Resolves(current, m) && !Blank(m) ==> IsNew(record, done, m)
    ensures Resolves(current, m) || Blank(m) ==> Grown(record, current, done + [m])
    ensures RequestFor(current, m) == RequestFor(record, m)
  {
    ResolvesByTag(current, m);
    NamesAppend(done, m);
    if !Blank(m) { NewByNames(record, done, m); }
  }

  lemma CreationGrows(record: DeviceRecord, current: DeviceRecord, next: DeviceRecord, done: seq<Measurement>,
                      m: Measurement)
    requires Grown(record, current, done) && SameIdentity(next, current)
    requires Tags(current) <= Tags(next) && Resolves(next, m)
    ensures Grown(record, next, done + [m])
  {
    ResolvesByTag(next, m);
    NamesAppend(done, m);
  }

  /** One creation by tags, without a refresh. */
  lemma CreationTracked(now: CacheState, key: string, record: DeviceRecord, m: Measurement, answer: Answer)
    requires Tracks(now, key, record) && answer.Created?
    requires TrimSpace(answer.tag) == "" || Normalize(answer.tag) == Normalize(m.name)
    ensures var next := PutChannel(now, key, MappingOf(answer, RequestFor(record, m)));
            && key in now.byKey && key in next.byKey
            && Tracks(next, key, next.byKey[key]) && SameIdentity(next.byKey[key], record)
            && Tags(next.byKey[key]) == Tags(now.byKey[key]) + {Normalize(m.name)}
            && Tags(record) <= Tags(next.byKey[key])
            && Resolves(next.byKey[key], m)
  {
    var mapping := MappingOf(answer, RequestFor(record, m));
    EchoedTag(answer, record, m);
    PutIsMapUpdate(now.byKey[key].channels, mapping);
    ResolvesByTag(PutChannel(now, key, mapping).byKey[key], m);
  }

  lemma {:induction false} LoopAsksInOrder(record: DeviceRecord, done: seq<Measurement>, cs: CacheState,
                                           current: DeviceRecord, ms: seq<Measurement>, serial: string,
                                           answers: seq<Answer>, between: seq<seq<CacheOp>>)
    requires |answers| == |between| == |ms|
    requires Grown(record, current, done) && Echoes(answers, ms)
    requires Tracks(cs, Key(current.manufacturer, current.model, serial), current)
    requires NeverRefreshed(between, Key(current.manufacturer, current.model, serial))
    ensures Subsequence(Ensure(cs, current, ms, serial, answers, between).requests, NewRequests(record, done, ms))
    decreases |ms|
  {
    hide Key, Normalize, Grown, IsNew, Resolves, Blank, MappingOf, RequestFor, Tags, TagMap, NoRefresh, Subsequence;
    if ms == [] {
      EmptyIsSubsequence(NewRequests(record, done, ms));
    } else {
      var key := Key(current.manufacturer, current.model, serial);
      var now := ApplyAll(cs, between[0]);
      OpsKeepTracking(cs, between[0], key, current);
      assert Echoes(answers[1..], ms[1..]) && NeverRefreshed(between[1..], key);
      GrownAsksNew(record, current, done, ms[0]);
      var request, after := RequestFor(record, ms[0]), NewRequests(record, done + [ms[0]], ms[1..]);
      if Resolves(current, ms[0]) || Blank(ms[0]) {
        LoopAsksInOrder(record, done + [ms[0]], now, current, ms[1..], serial, answers[1..], between[1..]);
        SkipOne(Ensure(now, current, ms[1..], serial, answers[1..], between[1..]).requests, request, after);
        assert [] + after == after;
      } else if answers[0].Refused? {
        EmptyIsSubsequence(after);
        TakeOne([], request, after);
        assert [request] + [] == [request];
      } else {
        var next := PutChannel(now, key, MappingOf(answers[0], RequestFor(current, ms[0])));
        CreationTracked(now, key, current, ms[0], answers[0]);
        CreationGrows(record, current, next.byKey[key], done, ms[0]);
        LoopAsksInOrder(record, done + [ms[0]], next, next.byKey[key], ms[1..], serial, answers[1..], between[1..]);
        TakeOne(Ensure(next, next.byKey[key], ms[1..], serial, answers[1..], between[1..]).requests, request, after);
      }
    }
  }

  /** Without a refresh of the device, and whatever channels other requests create for it, the
      requests sent are, in order, among the ones for the first occurrence of each name, up
      to normalization, that is not blank and that the initial record cannot resolve. */
  lemma AsksOnlyForTheMissing(cs: CacheState, record: DeviceRecord, ms: seq<Measurement>, serial: string,
                              answers: seq<Answer>, between: seq<seq<CacheOp>>)
    requires |answers| == |between| == |ms| && Echoes(answers, ms)
    requires Tracks(cs, Key(record.manufacturer, record.model, serial), record)
    requires NeverRefreshed(between, Key(record.manufacturer, record.model, serial))
    ensures Subsequence(Ensure(cs, record, ms, serial, answers, between).requests, NewRequests(record, [], ms))
  {
    assert NamesOf([]) == {};
    LoopAsksInOrder(record, [], cs, record, ms, serial, answers, between);
  }

  // ---- Others spare some names: exactly the missing ----

  /** No channel upsert for the device with this key writes one of these normalized tags. */
  ghost predicate Spares(ops: seq<CacheOp>, key: string, tags: set<string>) {
    forall i :: 0 <= i < |ops| && ops[i].Channel? && Key(ops[i].manufacturer, ops[i].model, ops[i].serial) == key ==>
      Normalize(ops[i].mapping.tag) !in tags
  }

  ghost predicate AllSpare(between: seq<seq<CacheOp>>, key: string, tags: set<string>) {
    forall i :: 0 <= i < |between| ==> Spares(between[i], key, tags)
  }

  /** Others who neither refresh the device nor write these tags leave them as they are. */
  lemma {:induction false} SparedStay(cs: CacheState, ops: seq<CacheOp>, key: string, record: DeviceRecord,
                                      tags: set<string>)
    requires Tracks(cs, key, record) && NoRefresh(ops, key) && Spares(ops, key, tags)
    ensures Tracks(ApplyAll(cs, ops), key, record)
    ensures Tags(ApplyAll(cs, ops).byKey[key]) * tags == Tags(cs.byKey[key]) * tags
    decreases |ops|
  {
    hide Key, OwnKey;
    OpsKeepTracking(cs, ops, key, record);
    if ops != [] {
      var init, last := ops[..|ops| - 1], ops[|ops| - 1];
      SparedStay(cs, init, key, record, tags);
      var mid := ApplyAll(cs, init);
      match last
      case Batch(uploads) => OtherUploads(mid, uploads, key);
      case Channel(_, _, _, mapping) => PutIsMapUpdate(mid.byKey[key].channels, mapping);
    }
  }

  /** x is the record with, of the lacked names, exactly those of `done` added. */
  ghost predicate Knows(record: DeviceRecord, x: DeviceRecord, done: seq<Measurement>, lacked: set<string>) {
    && SameIdentity(x, record)
    && Tags(record) <= Tags(x)
    && Tags(x) * lacked == NamesOf(done) * lacked
  }

  /** The loop creates a channel exactly for the names that are new. */
  lemma MissingIsNew(record: DeviceRecord, current: DeviceRecord, done: seq<Measurement>, m: Measurement,
                     lacked: set<string>)
    requires Knows(record, current, done, lacked)
    requires !Blank(m) ==> Normalize(m.name) in lacked + Tags(record)
    ensures !Resolves(current, m) && !Blank(m) <==> IsNew(record, done, m)
    ensures RequestFor(current, m) == RequestFor(record, m)
  {
    ResolvesByTag(current, m);
    if !Blank(m) {
      NewByNames(record, done, m);
      assert Normalize(m.name) in lacked ==>
          (Normalize(m.name) in Tags(current) * lacked <==> Normalize(m.name) in NamesOf(done) * lacked);
    }
  }

  lemma SkippedKnows(record: DeviceRecord, x: DeviceRecord, done: seq<Measurement>, m: Measurement,
                     lacked: set<string>)
    requires Knows(record, x, done, lacked) && lacked !! Tags(record) && !IsNew(record, done, m)
    ensures Knows(record, x, done + [m], lacked)
  {
    NamesAppend(done, m);
    if !Blank(m) { NewByNames(record, done, m); }
  }

  lemma CreatedKnows(record: DeviceRecord, stored: DeviceRecord, next: DeviceRecord, done: seq<Measurement>,
                     m: Measurement, lacked: set<string>)
    requires Knows(record, stored, done, lacked) && !Blank(m)
    requires SameIdentity(next, record) && Tags(next) == Tags(stored) + {Normalize(m.name)}
    ensures Knows(record, next, done + [m], lacked)
  {
    NamesAppend(done, m);
    var name := {Normalize(m.name)};
    assert (Tags(stored) + name) * lacked == Tags(stored) * lacked + name * lacked;
    assert (NamesOf(done) + name) * lacked == NamesOf(done) * lacked + name * lacked;
  }

  ghost predicate Exactly(record: DeviceRecord, done: seq<Measurement>, ms: seq<Measurement>, answers: seq<Answer>,
                          e: Ensured)
    requires |answers| == |ms|
  {
    && e.requests <= NewRequests(record, done, ms)
    && (e.result.Ok? <==> Granted(record, done, ms, answers))
    && (e.result.Ok? ==> e.requests == NewRequests(record, done, ms))
  }

  lemma ExactlySkipped(record: DeviceRecord, done: seq<Measurement>, ms: seq<Measurement>, answers: seq<Answer>,
                       e: Ensured)
    requires ms != [] && |answers| == |ms| && !IsNew(record, done, ms[0])
    requires Exactly(record, done + [ms[0]], ms[1..], answers[1..], e)
    ensures Exactly(record, done, ms, answers, e)
  {
    assert [] + NewRequests(record, done + [ms[0]], ms[1..]) == NewRequests(record, done, ms);
  }

  lemma ExactlyCreated(record: DeviceRecord, done: seq<Measurement>, ms: seq<Measurement>, answers: seq<Answer>,
                       e: Ensured)
    requires ms != [] && |answers| == |ms| && IsNew(record, done, ms[0]) && answers[0].Created?
    requires Exactly(record, done + [ms[0]], ms[1..], answers[1..], e)
    ensures Exactly(record, done, ms, answers, Prepend(RequestFor(record, ms[0]), e))
  {
  }

  lemma ExactlyRefused(record: DeviceRecord, done: seq<Measurement>, ms: seq<Measurement>, answers: seq<Answer>,
                       e: Ensured)
    requires ms != [] && |answers| == |ms| && IsNew(record, done, ms[0]) && answers[0].Refused?
    requires e.requests == [RequestFor(record, ms[0])] && e.result.Err?
    ensures Exactly(record, done, ms, answers, e)
  {
  }

  lemma {:induction false} LoopIsExact(record: DeviceRecord, done: seq<Measurement>, cs: CacheState,
                                       current: DeviceRecord, ms: seq<Measurement>, serial: string,
                                       answers: seq<Answer>, between: seq<seq<CacheOp>>, lacked: set<string>)
    requires |answers| == |between| == |ms| && Echoes(answers, ms)
    requires Knows(record, current, done, lacked) && lacked !! Tags(record) && NamesOf(ms) <= lacked + Tags(record)
    requires var key := Key(record.manufacturer, record.model, serial);
             && Tracks(cs, key, current) && Knows(record, cs.byKey[key], done, lacked)
             && NeverRefreshed(between, key) && AllSpare(between, key, lacked)
    ensures Exactly(record, done, ms, answers, Ensure(cs, current, ms, serial, answers, between))
    decreases |ms|
  {
    hide Key, Normalize, Exactly, Knows, IsNew, Resolves, Blank, MappingOf, RequestFor, Tags, TagMap, NoRefresh, Spares,
      NamesOf;
    var key := Key(record.manufacturer, record.model, serial);
    SameKey(record, current, done, lacked, serial);
    if ms == [] {
      NothingLeft(record, done, answers, Ensured(cs, [], Ok(current)));
    } else {
      var now := ApplyAll(cs, between[0]);
      SparedStay(cs, between[0], key, current, lacked);
      StillKnows(record, cs.byKey[key], current, done, lacked, now, key);
      assert Echoes(answers[1..], ms[1..]) && NeverRefreshed(between[1..], key) && AllSpare(between[1..], key, lacked);
      NamesOfRest(ms);
      MissingIsNew(record, current, done, ms[0], lacked);
      if Resolves(current, ms[0]) || Blank(ms[0]) {
        SkippedKnows(record, current, done, ms[0], lacked);
        SkippedKnows(record, now.byKey[key], done, ms[0], lacked);
        LoopIsExact(record, done + [ms[0]], now, current, ms[1..], serial, answers[1..], between[1..], lacked);
        ExactlySkipped(record, done, ms, answers, Ensure(now, current, ms[1..], serial, answers[1..], between[1..]));
      } else if answers[0].Refused? {
        ExactlyRefused(record, done, ms, answers, Ensure(cs, current, ms, serial, answers, between));
      } else {
        var next := PutChannel(now, key, MappingOf(answers[0], RequestFor(current, ms[0])));
        CreationTracked(now, key, current, ms[0], answers[0]);
        SameIdentityChain(next.byKey[key], current, record, done, lacked);
        CreatedKnows(record, now.byKey[key], next.byKey[key], done, ms[0], lacked);
        LoopIsExact(record, done + [ms[0]], next, next.byKey[key], ms[1..], serial, answers[1..], between[1..], lacked);
        var rest := Ensure(next, next.byKey[key], ms[1..], serial, answers[1..], between[1..]);
        ExactlyCreated(record, done, ms, answers, rest);
      }
    }
  }

  lemma SameKey(record: DeviceRecord, current: DeviceRecord, done: seq<Measurement>, lacked: set<string>,
                serial: string)
    requires Knows(record, current, done, lacked)
    ensures Key(current.manufacturer, current.model, serial) == Key(record.manufacturer, record.model, serial)
  {
  }

  lemma SameIdentityChain(next: DeviceRecord, current: DeviceRecord, record: DeviceRecord, done: seq<Measurement>,
                          lacked: set<string>)
    requires SameIdentity(next, current) && Knows(record, current, done, lacked)
    ensures SameIdentity(next, record)
  {
  }

  lemma StillKnows(record: DeviceRecord, stored: DeviceRecord, current: DeviceRecord, done: seq<Measurement>,
                   lacked: set<string>, now: CacheState, key: string)
    requires Knows(record, stored, done, lacked) && Knows(record, current, done, lacked)
    requires Tracks(now, key, current) && Tags(now.byKey[key]) * lacked == Tags(stored) * lacked
    ensures Knows(record, now.byKey[key], done, lacked)
  {
  }

  lemma NamesOfRest(ms: seq<Measurement>)
    requires ms != []
    ensures NamesOf(ms[1..]) <= NamesOf(ms)
    ensures !Blank(ms[0]) ==> Normalize(ms[0].name) in NamesOf(ms)
  {
    forall name | name in NamesOf(ms[1..]) ensures name in NamesOf(ms) {
      var i :| 0 <= i < |ms[1..]| && !Blank(ms[1..][i]) && Normalize(ms[1..][i].name) == name;
      NamedHere(ms, i + 1);
    }
    if !Blank(ms[0]) { NamedHere(ms, 0); }
  }

  lemma NothingLeft(record: DeviceRecord, done: seq<Measurement>, answers: seq<Answer>, e: Ensured)
    requires |answers| == 0 && e.requests == [] && e.result.Ok?
    ensures Exactly(record, done, [], answers, e)
  {
  }

  /** The creation set. While the device is not refreshed and other requests write none of the
      names this upload lacks, the requests sent are exactly one for the first occurrence of
      each name, up to normalization, that is not blank and that the initial record cannot
      resolve, cut short at the first refusal; the loop succeeds exactly when all of them are
      granted. */
  lemma CreatesExactlyTheMissing(cs: CacheState, record: DeviceRecord, ms: seq<Measurement>, serial: string,
                                 answers: seq<Answer>, between: seq<seq<CacheOp>>)
    requires |answers| == |between| == |ms| && Echoes(answers, ms)
    requires var key := Key(record.manufacturer, record.model, serial);
             && Tracks(cs, key, record) && Lacked(record, ms) !! Tags(cs.byKey[key])
             && NeverRefreshed(between, key) && AllSpare(between, key, Lacked(record, ms))
    ensures var e := Ensure(cs, record, ms, serial, answers, between);
            && e.requests <= NewRequests(record, [], ms)
            && (e.result.Ok? <==> Granted(record, [], ms, answers))
            && (e.result.Ok? ==> e.requests == NewRequests(record, [], ms))
  {
    hide Key;
    assert NamesOf([]) == {};
    LoopIsExact(record, [], cs, record, ms, serial, answers, between, Lacked(record, ms));
  }

  // ---- Ids known before ----

  /** An upload of the device names the key again and lists the tag under this id; a channel
      upsert of the device that writes the tag writes this id. */
  ghost predicate KeepsId(op: CacheOp, key: string, serial: string, tag: string, id: UInt64) {
    match op
    case Batch(uploads) =>
      forall j :: 0 <= j < |uploads| && OwnKey(uploads[j].record) == key ==>
        Names(uploads[j].record, key, serial) && Resolve(uploads[j].record.channels, tag) == Some(id)
    case Channel(m, mo, s, mapping) =>
      Key(m, mo, s) == key && Normalize(mapping.tag) == Normalize(tag) ==> mapping.channelID == id
  }

  ghost predicate OpsKeepId(ops: seq<CacheOp>, key: string, serial: string, tag: string, id: UInt64) {
    forall i :: 0 <= i < |ops| ==> KeepsId(ops[i], key, serial, tag, id)
  }

  ghost predicate AllKeepId(between: seq<seq<CacheOp>>, key: string, serial: string, tag: string, id: UInt64) {
    forall i :: 0 <= i < |between| ==> OpsKeepId(between[i], key, serial, tag, id)
  }

  /** The cached device names the key again and has the tag under this id. */
  ghost predicate HasId(cs: CacheState, key: string, serial: string, tag: string, id: UInt64) {
    key in cs.byKey && Names(cs.byKey[key], key, serial) && Resolve(cs.byKey[key].channels, tag) == Some(id)
  }

  lemma {:induction false} UploadsHaveId(cs: CacheState, uploads: seq<Upload>, key: string, serial: string, tag: string,
                                         id: UInt64)
    requires HasId(cs, key, serial, tag, id) && KeepsId(Batch(uploads), key, serial, tag, id)
    ensures HasId(UpsertAll(cs, uploads), key, serial, tag, id)
    decreases |uploads|
  {
    hide Key, Resolve;
    if uploads != [] { UploadsHaveId(cs, uploads[..|uploads| - 1], key, serial, tag, id); }
  }

  lemma {:induction false} OpsHaveId(cs: CacheState, ops: seq<CacheOp>, key: string, serial: string, tag: string,
                                     id: UInt64)
    requires HasId(cs, key, serial, tag, id) && OpsKeepId(ops, key, serial, tag, id)
    ensures HasId(ApplyAll(cs, ops), key, serial, tag, id)
    decreases |ops|
  {
    hide Key, Resolve, UpsertAll;
    if ops != [] {
      var init, last := ops[..|ops| - 1], ops[|ops| - 1];
      OpsHaveId(cs, init, key, serial, tag, id);
      var mid := ApplyAll(cs, init);
      assert KeepsId(last, key, serial, tag, id);
      match last
      case Batch(uploads) => UploadsHaveId(mid, uploads, key, serial, tag, id);
      case Channel(_, _, _, mapping) => PutObserved(mid.byKey[key].channels, mapping, tag);
    }
  }

  lemma CreationHasId(now: CacheState, key: string, serial: string, record: DeviceRecord, m: Measurement,
                      answer: Answer, tag: string, id: UInt64)
    requires HasId(now, key, serial, tag, id) && Resolve(record.channels, tag) == Some(id)
    requires !Resolves(record, m) && answer.Created?
    requires TrimSpace(answer.tag) == "" || Normalize(answer.tag) == Normalize(m.name)
    ensures HasId(PutChannel(now, key, MappingOf(answer, RequestFor(record, m))), key, serial, tag, id)
  {
    var mapping := MappingOf(answer, RequestFor(record, m));
    EchoedTag(answer, record, m);
    PutObserved(now.byKey[key].channels, mapping, tag);
    ResolveIsLookup(record.channels, tag);
    ResolvesByTag(record, m);
  }

  /** An id the record already had stays as it was, as long as others who refresh the device or
      write that very tag keep the id; what they do to other tags is free. */
  lemma {:induction false} KnownIdsUnchanged(cs: CacheState, record: DeviceRecord, ms: seq<Measurement>, serial: string,
                                             answers: seq<Answer>, between: seq<seq<CacheOp>>, tag: string, id: UInt64)
    requires |answers| == |between| == |ms| && Echoes(answers, ms)
    requires Resolve(record.channels, tag) == Some(id)
    requires var key := Key(record.manufacturer, record.model, serial);
             HasId(cs, key, serial, tag, id) && AllKeepId(between, key, serial, tag, id)
    ensures var r := Ensure(cs, record, ms, serial, answers, between).result;
            r != Err(CacheUpdateFailed) && (r.Ok? ==> Resolve(r.value.channels, tag) == Some(id))
    decreases |ms|
  {
    hide Key, Normalize, Resolve, Blank, MappingOf, RequestFor, OpsKeepId, HasId;
    if ms != [] {
      var key := Key(record.manufacturer, record.model, serial);
      var now := ApplyAll(cs, between[0]);
      OpsHaveId(cs, between[0], key, serial, tag, id);
      assert Echoes(answers[1..], ms[1..]) && AllKeepId(between[1..], key, serial, tag, id);
      if Resolves(record, ms[0]) || Blank(ms[0]) {
        KnownIdsUnchanged(now, record, ms[1..], serial, answers[1..], between[1..], tag, id);
      } else if answers[0].Created? {
        var next := PutChannel(now, key, MappingOf(answers[0], RequestFor(record, ms[0])));
        CreationHasId(now, key, serial, record, ms[0], answers[0], tag, id);
        CachedHasId(now, key, serial, tag, id);
        CachedHasId(next, key, serial, tag, id);
        KnownIdsUnchanged(next, next.byKey[key], ms[1..], serial, answers[1..], between[1..], tag, id);
      }
    }
  }

  lemma CachedHasId(cs: CacheState, key: string, serial: string, tag: string, id: UInt64)
    requires HasId(cs, key, serial, tag, id)
    ensures key in cs.byKey && Names(cs.byKey[key], key, serial) && Resolve(cs.byKey[key].channels, tag) == Some(id)
  {
  }

  const KNOWN_DEVICE: DeviceRecord := PLAIN_DEVICE.(channels := [ChannelMapping(5, "t")])

  /** Without a refresh alone it is false: another request that writes a known tag while this
      one creates a channel changes the id this one sees. */
  lemma OtherRequestChangesKnownId()
    ensures var cs := UpsertOne(EMPTY_CACHE, KNOWN_DEVICE, 0);
            var h := Measurement(2, "h", "", 0);
            var between := [[Channel("comet", "uxxxxm", "s", ChannelMapping(9, "t"))]];
            var e := Ensure(cs, KNOWN_DEVICE, [h], "s", [Created(8, "h")], between);
            && NeverRefreshed(between, OwnKey(KNOWN_DEVICE))
            && Resolve(KNOWN_DEVICE.channels, "t") == Some(5)
            && e.result.Ok? && Resolve(e.result.value.channels, "t") == Some(9)
  {
    PlainText("s");
    PlainText("comet");
    PlainText("uxxxxm");
    PlainText("t");
    PlainText("h");
    var h, answer, known := Measurement(2, "h", "", 0), Created(8, "h"), ChannelMapping(5, "t");
    var cs := UpsertOne(EMPTY_CACHE, KNOWN_DEVICE, 0);
    var ops := [Channel("comet", "uxxxxm", "s", ChannelMapping(9, "t"))];
    var key := OwnKey(KNOWN_DEVICE);
    assert Key("comet", "uxxxxm", "s") == key;
    assert ops[..0] == [] && ApplyAll(cs, []) == cs;
    var now := ApplyAll(cs, ops);
    assert [known][1..] == [];
    assert Resolve([known], "t") == Some(5) && Resolve([known], "h") == Resolve([], "h") == None;
    assert !Blank(h) by { BlankNormalizesToEmpty("h"); }
    OneCreation(cs, KNOWN_DEVICE, h, "s", answer, ops);
    PutObserved([known], ChannelMapping(9, "t"), "t");
    PutObserved(now.byKey[key].channels, ChannelMapping(8, "h"), "t");
    assert MappingOf(answer, RequestFor(KNOWN_DEVICE, h)) == ChannelMapping(8, "h");
  }

  // ---- Exactly which id a known tag ends up with ----

  /** The last id that ops write under a tag of the device with this key. */
  function WrittenIn(ops: seq<CacheOp>, key: string, tag: string): Option<UInt64> {
    if ops == [] then None
    else
      match ops[|ops| - 1]
      case Batch(_) => WrittenIn(ops[..|ops| - 1], key, tag)
      case Channel(m, mo, s, mapping) =>
        if Key(m, mo, s) == key && Normalize(mapping.tag) == Normalize(tag) then Some(mapping.channelID)
        else WrittenIn(ops[..|ops| - 1], key, tag)
  }

  function WrittenThrough(gaps: seq<seq<CacheOp>>, key: string, tag: string): Option<UInt64> {
    if gaps == [] then None else Latest(WrittenThrough(gaps[1..], key, tag), WrittenIn(gaps[0], key, tag))
  }

  function Latest(later: Option<UInt64>, earlier: Option<UInt64>): Option<UInt64> {
    if later.Some? then later else earlier
  }

  lemma {:induction false} OpsShowLastWrite(cs: CacheState, ops: seq<CacheOp>, key: string, tag: string)
    requires key in cs.byKey && NoRefresh(ops, key)
    ensures key in ApplyAll(cs, ops).byKey
    ensures Resolve(ApplyAll(cs, ops).byKey[key].channels, tag)
         == Latest(WrittenIn(ops, key, tag), Resolve(cs.byKey[key].channels, tag))
    decreases |ops|
  {
    hide Key, OwnKey, Resolve;
    if ops != [] {
      var init, last := ops[..|ops| - 1], ops[|ops| - 1];
      OpsShowLastWrite(cs, init, key, tag);
      var mid := ApplyAll(cs, init);
      match last
      case Batch(uploads) => OtherUploads(mid, uploads, key);
      case Channel(_, _, _, mapping) => PutObserved(mid.byKey[key].channels, mapping, tag);
    }
  }

  lemma TrackedResolves(cs: CacheState, key: string, record: DeviceRecord, tag: string)
    requires Tracks(cs, key, record) && Resolve(record.channels, tag).Some?
    ensures key in cs.byKey && Resolve(cs.byKey[key].channels, tag).Some?
  {
    ResolveIsLookup(record.channels, tag);
    ResolveIsLookup(cs.byKey[key].channels, tag);
  }

  /** A creation writes another tag than one the record in hand resolves. */
  lemma CreationSpares(now: CacheState, key: string, record: DeviceRecord, m: Measurement, answer: Answer, tag: string)
    requires key in now.byKey && !Resolves(record, m) && Resolve(record.channels, tag).Some? && answer.Created?
    requires TrimSpace(answer.tag) == "" || Normalize(answer.tag) == Normalize(m.name)
    ensures Resolve(PutChannel(now, key, MappingOf(answer, RequestFor(record, m))).byKey[key].channels, tag)
         == Resolve(now.byKey[key].channels, tag)
  {
    var mapping := MappingOf(answer, RequestFor(record, m));
    EchoedTag(answer, record, m);
    PutObserved(now.byKey[key].channels, mapping, tag);
    ResolveIsLookup(record.channels, tag);
    ResolvesByTag(record, m);
  }

  lemma {:induction false} ResultShowsLastWrite(cs: CacheState, record: DeviceRecord, ms: seq<Measurement>,
                                                serial: string, answers: seq<Answer>, between: seq<seq<CacheOp>>,
                                                tag: string)
    requires |answers| == |between| == |ms| && Echoes(answers, ms)
    requires var key := Key(record.manufacturer, record.model, serial);
             Tracks(cs, key, record) && NeverRefreshed(between, key)
    requires Resolve(record.channels, tag).Some?
    requires Ensure(cs, record, ms, serial, answers, between).result.Ok?
    requires LastCreation(cs, record, ms, serial, answers, between).Some?
    ensures var r := Ensure(cs, record, ms, serial, answers, between).result.value;
            var at := LastCreation(cs, record, ms, serial, answers, between).value.at;
            var key := Key(record.manufacturer, record.model, serial);
            Resolve(r.channels, tag) ==
              Latest(WrittenThrough(between[..at + 1], key, tag), Resolve(cs.byKey[key].channels, tag))
    decreases |ms|
  {
    hide Key, Normalize, Resolve, Blank, MappingOf, RequestFor, NoRefresh, Tracks, WrittenIn;
    var key := Key(record.manufacturer, record.model, serial);
    var at := LastCreation(cs, record, ms, serial, answers, between).value.at;
    var now := ApplyAll(cs, between[0]);
    TrackedResolves(cs, key, record, tag);
    OpsKeepTracking(cs, between[0], key, record);
    OpsShowLastWrite(cs, between[0], key, tag);
    TrackedResolves(now, key, record, tag);
    assert Echoes(answers[1..], ms[1..]) && NeverRefreshed(between[1..], key);
    assert between[..at + 1][1..] == between[1..][..at];
    if Resolves(record, ms[0]) || Blank(ms[0]) {
      ResultShowsLastWrite(now, record, ms[1..], serial, answers[1..], between[1..], tag);
    } else {
      var next := PutChannel(now, key, MappingOf(answers[0], RequestFor(record, ms[0])));
      CreationTracked(now, key, record, ms[0], answers[0]);
      CreationSpares(now, key, record, ms[0], answers[0], tag);
      var step := next.byKey[key];
      if LastCreation(next, step, ms[1..], serial, answers[1..], between[1..]).None? {
        ResultIsLastEntry(next, step, ms[1..], serial, answers[1..], between[1..]);
        assert between[1..][..0] == [];
      } else {
        StepNamesKey(record, step, serial);
        ResultShowsLastWrite(next, step, ms[1..], serial, answers[1..], between[1..], tag);
      }
    }
  }

  lemma StepNamesKey(record: DeviceRecord, step: DeviceRecord, serial: string)
    requires SameIdentity(step, record)
    ensures Key(step.manufacturer, step.model, serial) == Key(record.manufacturer, record.model, serial)
  {
  }

  /** Without a refresh of the device, the id a known tag has after success is the record's
      own if nothing was created, and otherwise the last id others wrote under the tag before
      the last creation, or the cached one if they wrote none; so it is unchanged if and only
      if nothing was created or that id is the record's. */
  lemma KnownIdUnchangedIff(cs: CacheState, record: DeviceRecord, ms: seq<Measurement>, serial: string,
                            answers: seq<Answer>, between: seq<seq<CacheOp>>, tag: string)
    requires |answers| == |between| == |ms| && Echoes(answers, ms)
    requires var key := Key(record.manufacturer, record.model, serial);
             Tracks(cs, key, record) && NeverRefreshed(between, key)
    requires Resolve(record.channels, tag).Some?
    requires Ensure(cs, record, ms, serial, answers, between).result.Ok?
    ensures var r := Ensure(cs, record, ms, serial, answers, between).result.value;
            var last := LastCreation(cs, record, ms, serial, answers, between);
            var key := Key(record.manufacturer, record.model, serial);
            var cached := Resolve(cs.byKey[key].channels, tag);
            && (last.None? ==> r == record)
            && (last.Some? ==>
                  Resolve(r.channels, tag) == Latest(WrittenThrough(between[..last.value.at + 1], key, tag), cached))
            && (Resolve(r.channels, tag) == Resolve(record.channels, tag) <==>
                last.None? ||
                Latest(WrittenThrough(between[..last.value.at + 1], key, tag), cached) == Resolve(record.channels, tag))
  {
    hide Key, Resolve, Ensure, LastCreation, NeverRefreshed, Echoes;
    ResultIsLastEntry(cs, record, ms, serial, answers, between);
    if LastCreation(cs, record, ms, serial, answers, between).Some? {
      ResultShowsLastWrite(cs, record, ms, serial, answers, between, tag);
    }
  }

  // ---- Blank names ----

  lemma {:induction false} BlankTagStays(cs: CacheState, record: DeviceRecord, ms: seq<Measurement>, serial: string,
                                         answers: seq<Answer>, between: seq<seq<CacheOp>>)
    requires |answers| == |between| == |ms|
    requires var key := Key(record.manufacturer, record.model, serial);
             && Tracks(cs, key, record) && ("" in Tags(cs.byKey[key]) <==> "" in Tags(record))
             && NeverRefreshed(between, key) && AllSpare(between, key, {""})
    ensures var r := Ensure(cs, record, ms, serial, answers, between).result;
            r.Ok? ==> ("" in Tags(r.value) <==> "" in Tags(record))
    decreases |ms|
  {
    hide Key, Normalize, TrimSpace, Resolves, MappingOf, RequestFor, NoRefresh, Spares;
    if ms != [] {
      var key := Key(record.manufacturer, record.model, serial);
      var now := ApplyAll(cs, between[0]);
      SparedStay(cs, between[0], key, record, {""});
      BlankKept(now.byKey[key], cs.byKey[key]);
      assert NeverRefreshed(between[1..], key) && AllSpare(between[1..], key, {""});
      if Resolves(record, ms[0]) || Blank(ms[0]) {
        BlankTagStays(now, record, ms[1..], serial, answers[1..], between[1..]);
      } else if answers[0].Created? {
        var mapping := MappingOf(answers[0], RequestFor(record, ms[0]));
        var next := PutChannel(now, key, mapping);
        WrittenTagIsNotBlank(answers[0], record, ms[0]);
        PutIsMapUpdate(now.byKey[key].channels, mapping);
        BlankTagStays(next, next.byKey[key], ms[1..], serial, answers[1..], between[1..]);
      }
    }
  }

  lemma BlankKept(x: DeviceRecord, y: DeviceRecord)
    requires Tags(x) * {""} == Tags(y) * {""}
    ensures "" in Tags(x) <==> "" in Tags(y)
  {
    assert "" in Tags(x) <==> "" in Tags(x) * {""};
    assert "" in Tags(y) <==> "" in Tags(y) * {""};
  }

  /** Blank names are the one obstacle: without a refresh of the device, and with other
      requests writing no blank tag, which WrittenTagIsNotBlank says they never do, after a
      successful ensureChannels BuildTelemetry succeeds exactly when each blank name resolved
      in the initial record already. */
  lemma BuildSucceedsIffBlanksResolve(cs: CacheState, record: DeviceRecord, parsed: ParseResult,
                                      answers: seq<Answer>, between: seq<seq<CacheOp>>)
    requires |answers| == |between| == |parsed.measurements| && Echoes(answers, parsed.measurements)
    requires var key := Key(record.manufacturer, record.model, parsed.serial);
             && Tracks(cs, key, record) && ("" in Tags(cs.byKey[key]) <==> "" in Tags(record))
             && NeverRefreshed(between, key) && AllSpare(between, key, {""})
    ensures var ms := parsed.measurements;
            var r := Ensure(cs, record, ms, parsed.serial, answers, between).result;
            r.Ok? ==>
              (Built(r.value, parsed).Ok? <==> forall i :: 0 <= i < |ms| && Blank(ms[i]) ==> Resolves(record, ms[i]))
  {
    hide Key, Tracks, NeverRefreshed, AllSpare, RefreshesKeepTags, Holds, Echoes;
    var ms := parsed.measurements;
    NeverRefreshedKeepsTags(cs, record, ms, parsed.serial, answers, between);
    EnsureCovers(cs, record, ms, parsed.serial, answers, between);
    BlankTagStays(cs, record, ms, parsed.serial, answers, between);
    var r := Ensure(cs, record, ms, parsed.serial, answers, between).result;
    if r.Ok? {
      forall i | 0 <= i < |ms|
        ensures Resolves(r.value, ms[i]) <==> !Blank(ms[i]) || Resolves(record, ms[i])
      {
        if Blank(ms[i]) { BlankResolvesByTag(r.value, record, ms[i]); }
      }
      BuiltIff(r.value, parsed);
    }
  }

  lemma BlankResolvesByTag(x: DeviceRecord, y: DeviceRecord, m: Measurement)
    requires Blank(m) && ("" in Tags(x) <==> "" in Tags(y))
    ensures Resolves(x, m) <==> Resolves(y, m)
  {
    BlankNormalizesToEmpty(m.name);
    ResolvesByTag(x, m);
    ResolvesByTag(y, m);
  }

  // ---- A second run ----

  /** A record that resolves every name that is not blank sends no request and stays as it is,
      whatever the server would say and whatever others do. */
  lemma {:induction false} NothingMissingNothingCreated(cs: CacheState, record: DeviceRecord, ms: seq<Measurement>,
                                                        serial: string, answers: seq<Answer>,
                                                        between: seq<seq<CacheOp>>)
    requires |answers| == |between| == |ms|
    requires forall i :: 0 <= i < |ms| ==> Resolves(record, ms[i]) || Blank(ms[i])
    ensures Ensure(cs, record, ms, serial, answers, between).requests == []
    ensures Ensure(cs, record, ms, serial, answers, between).result == Ok(record)
    decreases |ms|
  {
    if ms != [] {
      NothingMissingNothingCreated(ApplyAll(cs, between[0]), record, ms[1..], serial, answers[1..], between[1..]);
    }
  }

  /** A second run on the result of a first creates nothing and returns the same record. */
  lemma SecondRunCreatesNothing(cs: CacheState, record: DeviceRecord, ms: seq<Measurement>, serial: string,
                                answers: seq<Answer>, between: seq<seq<CacheOp>>,
                                cs': CacheState, answers': seq<Answer>, between': seq<seq<CacheOp>>)
    requires |answers| == |between| == |ms| == |answers'| == |between'|
    requires Holds(cs, Key(record.manufacturer, record.model, serial), serial, record)
    requires RefreshesKeepTags(cs, record, ms, serial, answers, between) && Echoes(answers, ms)
    requires Ensure(cs, record, ms, serial, answers, between).result.Ok?
    ensures var r := Ensure(cs, record, ms, serial, answers, between).result.value;
            var again := Ensure(cs', r, ms, serial, answers', between');
            again.requests == [] && again.result == Ok(r)
  {
    EnsureCovers(cs, record, ms, serial, answers, between);
    var r := Ensure(cs, record, ms, serial, answers, between).result.value;
    NothingMissingNothingCreated(cs', r, ms, serial, answers', between');
  }
}
