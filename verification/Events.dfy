/** What the reader of a node reports about it and about its devices. */
module Events {
  datatype NodeState = Connected | UnConnected | Connecting

  datatype DeviceState = Full | SomePart | Failed
}
