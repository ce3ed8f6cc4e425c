/** BuildTelemetry: from a parsed upload and a device record to a telemetry sample. */
module TelemetryBuilding {
  import opened Basics
  import opened ChannelMappings
  import opened CometTime
  import opened DeviceCaching
  import opened Telemetry

  datatype Measurement = Measurement(number: int, name: string, unit: string, value: UInt32)

  /** occurredAt is the Unix second of the upload. */
  datatype ParseResult = ParseResult(
    serial: string,
    occurredAt: Int64,
    measurements: seq<Measurement>,
    batteryPercent: Option<UInt32>,
    signalStrength: Option<UInt32>)

  datatype BuildError = UnresolvedChannel(number: int, name: string)

  predicate Resolves(record: DeviceRecord, m: Measurement) {
    Resolve(record.channels, m.name).Some?
  }

  /** The sample of a record that resolves every measurement: one series of one value for
      each measurement, in order. */
  function SampleOf(record: DeviceRecord, parsed: ParseResult): DeploymentSamples
    requires forall i :: 0 <= i < |parsed.measurements| ==> Resolves(record, parsed.measurements[i])
  {
    DeploymentSamples(
      record.deploymentID,
      Some(record.deviceID),
      record.gatewayDeploymentID,
      ToUInt64(parsed.occurredAt),
      [0],
      seq(|parsed.measurements|,
          i requires 0 <= i < |parsed.measurements| && Resolves(record, parsed.measurements[i]) =>
        ChannelSeries(Resolve(record.channels, parsed.measurements[i].name).value, [parsed.measurements[i].value])),
      if parsed.batteryPercent.Some? then [BatterySeries(BatteryPercent, [parsed.batteryPercent.value])] else [],
      if parsed.signalStrength.Some? then [SignalSeries(Comet4G, [parsed.signalStrength.value])] else [])
  }

  function FirstUnresolved(record: DeviceRecord, ms: seq<Measurement>): (n: nat)
    ensures n <= |ms|
    ensures n < |ms| ==> !Resolves(record, ms[n])
    ensures forall i :: 0 <= i < n ==> Resolves(record, ms[i])
  {
    if ms == [] || !Resolves(record, ms[0]) then 0
    else
      var n := FirstUnresolved(record, ms[1..]);
      assert forall i :: 1 <= i < n + 1 ==> ms[i] == ms[1..][i - 1];
      n + 1
  }

  function Built(record: DeviceRecord, parsed: ParseResult): Result<DeploymentSamples, BuildError> {
    var n := FirstUnresolved(record, parsed.measurements);
    if n == |parsed.measurements| then Ok(SampleOf(record, parsed))
    else Err(UnresolvedChannel(parsed.measurements[n].number, parsed.measurements[n].name))
  }

  /** What a sample of an upload has to carry: the device's ids, the upload's second, one series
      of one value for each measurement under the id its name resolves to, and one battery and
      one signal series exactly when the upload has those values. */
  ghost predicate Carries(sample: DeploymentSamples, record: DeviceRecord, parsed: ParseResult) {
    && sample.deploymentID == record.deploymentID
    && sample.deviceID == Some(record.deviceID)
    && sample.gatewayDeploymentID == record.gatewayDeploymentID
    && (parsed.occurredAt >= 0 ==> sample.t0 == parsed.occurredAt)
    && (parsed.occurredAt < 0 ==> sample.t0 == parsed.occurredAt as int + TWO_TO_64)
    && sample.dt == [0]
    && |sample.channelSeries| == |parsed.measurements|
    && (forall i :: 0 <= i < |parsed.measurements| ==>
          && Some(sample.channelSeries[i].channelID) == Resolve(record.channels, parsed.measurements[i].name)
          && sample.channelSeries[i].values == [parsed.measurements[i].value])
    && (parsed.batteryPercent.None? ==> sample.batterySeries == [])
    && (parsed.batteryPercent.Some? ==>
          && |sample.batterySeries| == 1
          && sample.batterySeries[0].batteryType == BatteryPercent
          && sample.batterySeries[0].values == [parsed.batteryPercent.value])
    && (parsed.signalStrength.None? ==> sample.signalSeries == [])
    && (parsed.signalStrength.Some? ==>
          && |sample.signalSeries| == 1
          && sample.signalSeries[0].signalType == Comet4G
          && sample.signalSeries[0].values == [parsed.signalStrength.value])
  }

  /** The error names the first measurement that does not resolve. */
  ghost predicate NamesFirstUnresolved(error: BuildError, record: DeviceRecord, parsed: ParseResult) {
    exists i ::
      && 0 <= i < |parsed.measurements|
      && Resolve(record.channels, parsed.measurements[i].name).None?
      && (forall j :: 0 <= j < i ==> Resolve(record.channels, parsed.measurements[j].name).Some?)
      && error.number == parsed.measurements[i].number && error.name == parsed.measurements[i].name
  }

  lemma BuiltCarries(record: DeviceRecord, parsed: ParseResult)
    ensures Built(record, parsed).Ok? ==> Carries(Built(record, parsed).value, record, parsed)
    ensures Built(record, parsed).Err? ==> NamesFirstUnresolved(Built(record, parsed).error, record, parsed)
  {
    var n := FirstUnresolved(record, parsed.measurements);
    assert n < |parsed.measurements| ==> !Resolves(record, parsed.measurements[n]);
    assert forall j :: 0 <= j < n ==> Resolves(record, parsed.measurements[j]);
  }

  method BuildTelemetry(record: DeviceRecord, parsed: ParseResult) returns (r: Result<DeploymentSamples, BuildError>)
    ensures r.Ok? <==> forall i :: 0 <= i < |parsed.measurements| ==> Resolves(record, parsed.measurements[i])
    ensures r == Built(record, parsed)
    ensures r.Ok? ==> Carries(r.value, record, parsed)
    ensures r.Err? ==> NamesFirstUnresolved(r.error, record, parsed)
  {
    BuiltCarries(record, parsed);
    var ms := parsed.measurements;
    var series: seq<ChannelSeries> := [];
    for i := 0 to |ms|
      invariant |series| == i
      invariant forall j :: 0 <= j < i ==>
        Resolves(record, ms[j]) && series[j] == ChannelSeries(Resolve(record.channels, ms[j].name).value, [ms[j].value])
    {
      match Resolve(record.channels, ms[i].name)
      case None =>
        assert !Resolves(record, ms[i]);
        return Err(UnresolvedChannel(ms[i].number, ms[i].name));
      case Some(channelID) =>
        series := series + [ChannelSeries(channelID, [ms[i].value])];
    }
    var battery :=
      if parsed.batteryPercent.Some? then [BatterySeries(BatteryPercent, [parsed.batteryPercent.value])] else [];
    var signal := if parsed.signalStrength.Some? then [SignalSeries(Comet4G, [parsed.signalStrength.value])] else [];
    r := Ok(DeploymentSamples(record.deploymentID, Some(record.deviceID), record.gatewayDeploymentID,
                              ToUInt64(parsed.occurredAt), [0], series, battery, signal));
    assert series == SampleOf(record, parsed).channelSeries;
  }

  /** From the simulator's clock to the sample: the second survives the hex field and lands
      in T0 unchanged exactly from 1970 on; before that T0 is off by 2^64. */
  lemma SecondReachesT0(record: DeviceRecord, parsed: ParseResult, second: Int64)
    requires second >= SECONDS_2000_TO_UNIX - TWO_TO_63
    requires ParseDeviceTime(JsonString(CometTimeHex(second))) == Some(parsed.occurredAt)
    requires Built(record, parsed).Ok?
    ensures parsed.occurredAt == second
    ensures Built(record, parsed).value.t0 == second <==> second >= 0
    ensures second < 0 ==> Built(record, parsed).value.t0 == second as int + TWO_TO_64
  {
    hide ParseDeviceTime, CometTimeHex, SampleOf;
    TimeRoundTrip(second);
    T0IsTheSecond(record, parsed);
  }

  lemma T0IsTheSecond(record: DeviceRecord, parsed: ParseResult)
    requires Built(record, parsed).Ok?
    ensures Built(record, parsed).value.t0 == ToUInt64(parsed.occurredAt)
  {
  }
}
