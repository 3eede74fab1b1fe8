/** The parsed 802.11 frame every consumer starts from, with the fields the modelled components read. */
module Frames {
  import opened Basics
  import opened Mac

  datatype FrameType =
    | Unknown | Beacon | ProbeRequest | ProbeResponse | Auth | Deauth | Disassoc
    | AssocReq | AssocResp | ReassocReq | ReassocResp | Action
    | CTS | RTS | ACK | BlockAckReq | BlockAck | Data | Null | QoSData

  /** How severe the detector considers an event. */
  datatype Severity = Info | Warning | Critical

  datatype ParsedFrame = ParsedFrame(
    frameType: FrameType,
    timestamp: Time,
    srcMAC: Address,
    dstMAC: Address,
    bssid: Address,
    ssid: string,
    channel: nat,
    rssi: int,
    capability: nat,
    beaconInterval: nat,
    status: nat,
    reasonCode: nat,
    toDS: bool,
    fromDS: bool,
    infoElements: Option<map<byte, seq<byte>>>)
}
