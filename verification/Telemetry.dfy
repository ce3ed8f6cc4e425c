/** The internal telemetry shape (internal/telemetry/model.go). A float32 is its bit pattern. */
module Telemetry {
  import opened Basics

  datatype ChannelSeries = ChannelSeries(channelID: UInt64, values: seq<UInt32>)

  datatype BatteryType = BatteryUnspecified | BatteryVoltage | BatteryPercent

  datatype BatterySeries = BatterySeries(batteryType: BatteryType, values: seq<UInt32>)

  datatype SignalType = SignalUnspecified | WirelessValue2G | WirelessValue4G | WirelessValue868
                      | Comet2G | Comet4G | NBIoT | CatLTE

  datatype SignalSeries = SignalSeries(signalType: SignalType, values: seq<UInt32>)

  datatype DeploymentSamples = DeploymentSamples(
    deploymentID: UInt64,
    deviceID: Option<UInt64>,
    gatewayDeploymentID: Option<UInt64>,
    t0: UInt64,
    dt: seq<UInt32>,
    channelSeries: seq<ChannelSeries>,
    batterySeries: seq<BatterySeries>,
    signalSeries: seq<SignalSeries>)
}
