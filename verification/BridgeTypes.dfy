/**
 The state of one spanning tree bridge and of its ports, as plain values.

 Bridge identifiers are eight bytes compared with memcmp, most significant byte first;
 they are modelled by the integer those bytes spell (module BpduCodec proves that the two
 orders agree).  Time is counted in jiffies by an unbounded integer clock.
 */
module BridgeTypes {

  /** A timer records whether it is running and when it was started. */
  datatype Timer = Timer(running: bool, start: int) {
    function Clear(): Timer {
      this.(running := false)
    }

    predicate Expired(timeout: int, now: int) {
      running && now >= start + timeout
    }

    function Residue(now: int): int {
      if running then now - start else 0
    }
  }

  function Started(at: int): Timer {
    Timer(true, at)
  }

  datatype PortState = Disabled | Listening | Learning | Forwarding | Blocking

  /** The priority vector of a configuration message: root, cost to it, sending bridge and port. */
  datatype Vector = Vector(root: int, cost: int, bridge: int, port: int)

  /** Strict lexicographic order; smaller is better. */
  predicate Less(v: Vector, w: Vector) {
    v.root < w.root
    || (v.root == w.root
        && (v.cost < w.cost
            || (v.cost == w.cost
                && (v.bridge < w.bridge
                    || (v.bridge == w.bridge && v.port < w.port)))))
  }

  /** Lexicographic order on the first three components only. */
  predicate NoWorse(v: Vector, w: Vector) {
    v.root < w.root
    || (v.root == w.root
        && (v.cost < w.cost || (v.cost == w.cost && v.bridge <= w.bridge)))
  }

  datatype ConfigBpdu = ConfigBpdu(
    topologyChange: bool,
    topologyChangeAck: bool,
    vector: Vector,
    messageAge: int,
    maxAge: int,
    helloTime: int,
    forwardDelay: int)

  datatype Port = Port(
    portNo: int,
    priority: int,
    portId: int,
    pathCost: int,
    state: PortState,
    designated: Vector,
    topologyChangeAck: bool,
    configPending: bool,
    messageAgeTimer: Timer,
    forwardDelayTimer: Timer,
    holdTimer: Timer)
  {
    predicate Enabled() {
      state != Disabled
    }
  }

  /** A bridge as it is when a message leaves. */
  datatype Sender = Sender(
    bridgeId: int,
    designatedRoot: int,
    rootPort: int,
    maxAge: int,
    helloTime: int,
    forwardDelay: int,
    topologyChange: bool,
    ports: seq<Port>)

  /** What a run leaves behind: messages sent (with the bridge and the port that sent them), ports
      re-initialised, and forward-delay expiries. */
  datatype Event =
    | SentConfig(time: int, sender: Sender, from: Port, bpdu: ConfigBpdu)
    | SentTcn(time: int, from: Port)
    | PortReset(portNo: int)
    | DelayExpired(portNo: int)

  datatype Bridge = Bridge(
    hz: nat,
    bridgeId: int,
    designatedRoot: int,
    rootPathCost: int,
    rootPort: int,
    maxAge: int,
    helloTime: int,
    forwardDelay: int,
    bridgeMaxAge: int,
    bridgeHelloTime: int,
    bridgeForwardDelay: int,
    stpEnabled: bool,
    topologyChange: bool,
    topologyChangeDetected: bool,
    helloTimer: Timer,
    tcnTimer: Timer,
    topologyChangeTimer: Timer,
    ports: seq<Port>,
    now: int,
    trace: seq<Event>)
}
