/** What each creation of the loop asks the server for, and what its answer becomes. */
module CreationContents {
  import opened Basics
  import opened AsciiText
  import opened ChannelMappings
  import opened DeviceCaching
  import opened TelemetryBuilding
  import opened ChannelEnsuring
  import opened EnsureAndBuild
  import opened ExactCreation

  // ---- The requests ----

  /** The trimmed name of a measurement is both the tag and the name asked for, and its unit in
      normal form is the unit; the name is not blank. */
  ghost predicate AsksFor(request: CreateRequest, m: Measurement) {
    && request.tag == TrimSpace(m.name) && request.name == TrimSpace(m.name) && request.tag != ""
    && request.unit == NormalizeUnit(m.unit)
  }

  /** at[k] is the measurement of the k-th request. */
  ghost predicate Asked(requests: seq<CreateRequest>, ms: seq<Measurement>, at: seq<nat>) {
    && |at| == |requests|
    && (forall k :: 0 <= k < |at| ==> at[k] < |ms| && AsksFor(requests[k], ms[at[k]]))
    && (forall j, k :: 0 <= j < k < |at| ==> at[j] < at[k])
  }

  /** Every request but the last was granted, and the loop fails exactly when the last was
      refused, under its tag, or found no entry in the cache. */
  ghost predicate Concluded(e: Ensured, answers: seq<Answer>, at: seq<nat>)
    requires |at| == |e.requests| && forall k :: 0 <= k < |at| ==> at[k] < |answers|
  {
    && (forall k :: 0 <= k < |at| - 1 ==> answers[at[k]].Created?)
    && (e.result.Ok? ==> at == [] || answers[at[|at| - 1]].Created?)
    && (e.result == Err(CacheUpdateFailed) ==> at != [] && answers[at[|at| - 1]].Created?)
    && (e.result.Err? && e.result != Err(CacheUpdateFailed) ==>
          && at != [] && answers[at[|at| - 1]].Refused?
          && e.result == Err(CreateFailed(e.requests[|at| - 1].tag)))
  }

  function Shifted(at: seq<nat>): (r: seq<nat>)
    ensures |r| == |at| && forall k :: 0 <= k < |at| ==> r[k] == at[k] + 1
  {
    seq(|at|, k requires 0 <= k < |at| => at[k] + 1)
  }

  lemma AskedLater(e: Ensured, ms: seq<Measurement>, answers: seq<Answer>, at: seq<nat>)
    requires ms != [] && |answers| == |ms| && Asked(e.requests, ms[1..], at) && Concluded(e, answers[1..], at)
    ensures Asked(e.requests, ms, Shifted(at)) && Concluded(e, answers, Shifted(at))
  {
    hide AsksFor;
    var later := Shifted(at);
    assert forall k :: 0 <= k < |at| ==> ms[later[k]] == ms[1..][at[k]] && answers[later[k]] == answers[1..][at[k]];
  }

  lemma AskedFirst(request: CreateRequest, e: Ensured, ms: seq<Measurement>, answers: seq<Answer>, at: seq<nat>)
    requires ms != [] && |answers| == |ms| && Asked(e.requests, ms, at) && Concluded(e, answers, at)
    requires AsksFor(request, ms[0]) && answers[0].Created? && forall k :: 0 <= k < |at| ==> at[k] > 0
    ensures Asked(Prepend(request, e).requests, ms, [0] + at) && Concluded(Prepend(request, e), answers, [0] + at)
  {
    hide AsksFor;
  }

  lemma RequestAsks(record: DeviceRecord, m: Measurement)
    requires !Blank(m)
    ensures AsksFor(RequestFor(record, m), m)
  {
  }

  /** Every request of the loop, whatever others do: in order, each for a measurement with a
      name that is not blank, with that name as tag and name and its unit in normal form. */
  lemma {:induction false} RequestsAsk(cs: CacheState, record: DeviceRecord, ms: seq<Measurement>, serial: string,
                                       answers: seq<Answer>, between: seq<seq<CacheOp>>) returns (at: seq<nat>)
    requires |answers| == |between| == |ms|
    ensures var e := Ensure(cs, record, ms, serial, answers, between);
            Asked(e.requests, ms, at) && Concluded(e, answers, at)
    decreases |ms|
  {
    hide Key, Resolves, Blank, RequestFor, MappingOf, AsksFor;
    at := [];
    if ms != [] {
      var now := ApplyAll(cs, between[0]);
      var key := Key(record.manufacturer, record.model, serial);
      if Resolves(record, ms[0]) || Blank(ms[0]) {
        var rest := RequestsAsk(now, record, ms[1..], serial, answers[1..], between[1..]);
        AskedLater(Ensure(now, record, ms[1..], serial, answers[1..], between[1..]), ms, answers, rest);
        at := Shifted(rest);
      } else {
        RequestAsks(record, ms[0]);
        var request := RequestFor(record, ms[0]);
        if answers[0].Refused? || key !in now.byKey {
          at := [0];
          RequestTag(record, ms[0]);
        } else {
          var next := PutChannel(now, key, MappingOf(answers[0], request));
          var rest := RequestsAsk(next, next.byKey[key], ms[1..], serial, answers[1..], between[1..]);
          var e := Ensure(next, next.byKey[key], ms[1..], serial, answers[1..], between[1..]);
          AskedLater(e, ms, answers, rest);
          AskedFirst(request, e, ms, answers, Shifted(rest));
          at := [0] + Shifted(rest);
        }
      }
    }
  }

  lemma RequestTag(record: DeviceRecord, m: Measurement)
    ensures RequestFor(record, m).tag == TrimSpace(m.name)
  {
  }

  /** Without a refresh of the device every request is for the initial record's deployment and
      for a name that record cannot resolve. */
  lemma {:induction false} RequestsAreForTheDeployment(cs: CacheState, record: DeviceRecord, ms: seq<Measurement>,
                                                       serial: string, answers: seq<Answer>,
                                                       between: seq<seq<CacheOp>>, k: nat)
    requires |answers| == |between| == |ms| && Echoes(answers, ms)
    requires Tracks(cs, Key(record.manufacturer, record.model, serial), record)
    requires NeverRefreshed(between, Key(record.manufacturer, record.model, serial))
    requires k < |Ensure(cs, record, ms, serial, answers, between).requests|
    ensures var request := Ensure(cs, record, ms, serial, answers, between).requests[k];
            request.deploymentID == record.deploymentID && Resolve(record.channels, request.tag).None?
    decreases |ms|
  {
    hide Key, Normalize, TrimSpace, Blank, MappingOf, RequestFor, Tags, TagMap, NoRefresh, Resolve;
    var key := Key(record.manufacturer, record.model, serial);
    var now := ApplyAll(cs, between[0]);
    OpsKeepTracking(cs, between[0], key, record);
    assert Echoes(answers[1..], ms[1..]) && NeverRefreshed(between[1..], key);
    if Resolves(record, ms[0]) || Blank(ms[0]) {
      RequestsAreForTheDeployment(now, record, ms[1..], serial, answers[1..], between[1..], k);
    } else if k == 0 {
      FirstRequest(record, ms[0]);
    } else if answers[0].Created? {
      var next := PutChannel(now, key, MappingOf(answers[0], RequestFor(record, ms[0])));
      CreationTracked(now, key, record, ms[0], answers[0]);
      var step := next.byKey[key];
      StepNamesKey(record, step, serial);
      RequestsAreForTheDeployment(next, step, ms[1..], serial, answers[1..], between[1..], k - 1);
      var request := Ensure(next, step, ms[1..], serial, answers[1..], between[1..]).requests[k - 1];
      UnresolvedBefore(record, step, request.tag);
    }
  }

  lemma FirstRequest(record: DeviceRecord, m: Measurement)
    requires !Resolves(record, m)
    ensures RequestFor(record, m).deploymentID == record.deploymentID
    ensures Resolve(record.channels, RequestFor(record, m).tag).None?
  {
    NormalizeIgnoresPaddingAndCase("", m.name, "");
    ResolveIsLookup(record.channels, m.name);
    ResolveIsLookup(record.channels, TrimSpace(m.name));
  }

  lemma UnresolvedBefore(record: DeviceRecord, step: DeviceRecord, tag: string)
    requires Tags(record) <= Tags(step) && Resolve(step.channels, tag).None?
    ensures Resolve(record.channels, tag).None?
  {
    ResolveIsLookup(record.channels, tag);
    ResolveIsLookup(step.channels, tag);
  }

  // ---- The ids ----

  /** A creation is written under the server's id, and under the server's tag, or the trimmed
      name when the server leaves the tag blank. */
  lemma WrittenAsAnswered(answer: Answer, record: DeviceRecord, m: Measurement)
    requires answer.Created?
    ensures var mapping := MappingOf(answer, RequestFor(record, m));
            && mapping.channelID == answer.channelID
            && (TrimSpace(answer.tag) != "" ==> mapping.tag == answer.tag)
            && (TrimSpace(answer.tag) == "" ==> mapping.tag == TrimSpace(m.name))
  {
  }

  lemma CreatedHasId(now: CacheState, key: string, serial: string, record: DeviceRecord, m: Measurement,
                     answer: Answer)
    requires Tracks(now, key, record) && Names(record, key, serial) && answer.Created?
    requires TrimSpace(answer.tag) == "" || Normalize(answer.tag) == Normalize(m.name)
    ensures var next := PutChannel(now, key, MappingOf(answer, RequestFor(record, m)));
            && HasId(next, key, serial, m.name, answer.channelID)
            && Resolve(next.byKey[key].channels, m.name) == Some(answer.channelID)
  {
    var mapping := MappingOf(answer, RequestFor(record, m));
    WrittenAsAnswered(answer, record, m);
    EchoedTag(answer, record, m);
    PutObserved(now.byKey[key].channels, mapping, m.name);
  }

  /** Others who neither refresh the device nor write a tag leave its id alone. */
  lemma SparedKeepsId(between: seq<seq<CacheOp>>, key: string, serial: string, tag: string, id: UInt64,
                      tags: set<string>)
    requires NeverRefreshed(between, key) && AllSpare(between, key, tags) && Normalize(tag) in tags
    ensures AllKeepId(between, key, serial, tag, id)
  {
    hide Key, Normalize, Resolve;
    forall i, j | 0 <= i < |between| && 0 <= j < |between[i]|
      ensures KeepsId(between[i][j], key, serial, tag, id)
    {
      assert NoRefresh(between[i], key) && Spares(between[i], key, tags);
    }
  }

  lemma {:induction false} LoopKeepsAnswers(record: DeviceRecord, done: seq<Measurement>, cs: CacheState,
                                            current: DeviceRecord, ms: seq<Measurement>, serial: string,
                                            answers: seq<Answer>, between: seq<seq<CacheOp>>, lacked: set<string>,
                                            i: nat)
    requires |answers| == |between| == |ms| && Echoes(answers, ms)
    requires Knows(record, current, done, lacked) && lacked !! Tags(record) && NamesOf(ms) <= lacked + Tags(record)
    requires var key := Key(record.manufacturer, record.model, serial);
             && Tracks(cs, key, current) && Knows(record, cs.byKey[key], done, lacked)
             && NeverRefreshed(between, key) && AllSpare(between, key, lacked)
    requires i < |ms| && IsNew(record, done + ms[..i], ms[i])
    ensures var r := Ensure(cs, current, ms, serial, answers, between).result;
            r.Ok? ==> answers[i].Created? && Resolve(r.value.channels, ms[i].name) == Some(answers[i].channelID)
    decreases |ms|
  {
    hide Key, Normalize, Knows, IsNew, Resolve, Blank, MappingOf, RequestFor, Tags, TagMap, NoRefresh, Spares, NamesOf,
      HasId, OpsKeepId;
    var key := Key(record.manufacturer, record.model, serial);
    SameKey(record, current, done, lacked, serial);
    var now := ApplyAll(cs, between[0]);
    SparedStay(cs, between[0], key, current, lacked);
    StillKnows(record, cs.byKey[key], current, done, lacked, now, key);
    assert Echoes(answers[1..], ms[1..]) && NeverRefreshed(between[1..], key) && AllSpare(between[1..], key, lacked);
    NamesOfRest(ms);
    MissingIsNew(record, current, done, ms[0], lacked);
    assert i == 0 ==> done + ms[..0] == done;
    assert i > 0 ==> done + ms[..i] == done + [ms[0]] + ms[1..][..i - 1];
    if Resolves(current, ms[0]) || Blank(ms[0]) {
      SkippedKnows(record, current, done, ms[0], lacked);
      SkippedKnows(record, now.byKey[key], done, ms[0], lacked);
      LoopKeepsAnswers(record, done + [ms[0]], now, current, ms[1..], serial, answers[1..], between[1..], lacked,
                       i - 1);
    } else if answers[0].Created? {
      var next := PutChannel(now, key, MappingOf(answers[0], RequestFor(current, ms[0])));
      CreationTracked(now, key, current, ms[0], answers[0]);
      SameIdentityChain(next.byKey[key], current, record, done, lacked);
      StepNamesKey(record, next.byKey[key], serial);
      if i == 0 {
        CreatedHasId(now, key, serial, current, ms[0], answers[0]);
        NewNameIsLacked(record, done, ms[0], lacked);
        SparedKeepsId(between[1..], key, serial, ms[0].name, answers[0].channelID, lacked);
        KnownIdsUnchanged(next, next.byKey[key], ms[1..], serial, answers[1..], between[1..], ms[0].name,
                          answers[0].channelID);
      } else {
        CreatedKnows(record, now.byKey[key], next.byKey[key], done, ms[0], lacked);
        LoopKeepsAnswers(record, done + [ms[0]], next, next.byKey[key], ms[1..], serial, answers[1..], between[1..],
                         lacked, i - 1);
      }
    }
  }

  lemma NewNameIsLacked(record: DeviceRecord, done: seq<Measurement>, m: Measurement, lacked: set<string>)
    requires IsNew(record, done, m) && Normalize(m.name) in lacked + Tags(record)
    ensures Normalize(m.name) in lacked
  {
    NewByNames(record, done, m);
  }

  /** While the device is not refreshed and others write none of the names this upload lacks,
      after success each name the record lacked resolves to the id the server answered to the
      first measurement of that name, blank tag in the answer or not. */
  lemma CreatedIdsAreAnswered(cs: CacheState, record: DeviceRecord, ms: seq<Measurement>, serial: string,
                              answers: seq<Answer>, between: seq<seq<CacheOp>>, i: nat)
    requires |answers| == |between| == |ms| && Echoes(answers, ms)
    requires var key := Key(record.manufacturer, record.model, serial);
             && Tracks(cs, key, record) && Lacked(record, ms) !! Tags(cs.byKey[key])
             && NeverRefreshed(between, key) && AllSpare(between, key, Lacked(record, ms))
    requires i < |ms| && TrimSpace(ms[i].name) != "" && Resolve(record.channels, ms[i].name).None?
    requires forall j :: 0 <= j < i ==> Normalize(ms[j].name) != Normalize(ms[i].name)
    ensures var r := Ensure(cs, record, ms, serial, answers, between).result;
            r.Ok? ==> answers[i].Created? && Resolve(r.value.channels, ms[i].name) == Some(answers[i].channelID)
  {
    hide Key;
    assert NamesOf([]) == {};
    assert [] + ms[..i] == ms[..i];
    LoopKeepsAnswers(record, [], cs, record, ms, serial, answers, between, Lacked(record, ms), i);
  }
}
