/** `TrafficState`: what the two readers and two writers of one proxied connection share. */
module VisionState {
  import opened Bytes

  /** What `TrafficState` remembers about the inner TLS connection. */
  datatype Tls = Tls(
    packetsToFilter: int,
    enableXtls: bool,
    tls12OrAbove: bool,
    tls: bool,
    cipher: int,
    remainingServerHello: int)

  const NEW_TLS: Tls := Tls(8, false, false, false, 0, -1)

  /** Where the unpadding parser of one link stands. */
  datatype Counters = Counters(command: int, content: int, padding: int, current: int)

  class TrafficState {
    const userUUID: bytes
    var numberOfPacketToFilter: int
    var enableXtls: bool
    var isTLS12orAbove: bool
    var isTLS: bool
    var cipher: int
    var remainingServerHello: int
    const inbound: LinkState
    const outbound: LinkState

    function TlsState(): Tls
      reads this
    {
      Tls(numberOfPacketToFilter, enableXtls, isTLS12orAbove, isTLS, cipher, remainingServerHello)
    }

    /** The server reads the uplink with its inbound state, the client the downlink with its outbound state. */
    function ReaderLink(isUplink: bool): LinkState {
      if isUplink then inbound else outbound
    }

    function WriterLink(isUplink: bool): LinkState {
      if isUplink then outbound else inbound
    }

    /** `NewTrafficState`. */
    constructor (userUUID: bytes)
      ensures this.userUUID == userUUID && TlsState() == NEW_TLS
      ensures fresh(inbound) && fresh(outbound) && inbound != outbound
      ensures inbound.Fresh() && outbound.Fresh()
    {
      this.userUUID := userUUID;
      numberOfPacketToFilter := 8;
      enableXtls, isTLS12orAbove, isTLS := false, false, false;
      cipher := 0;
      remainingServerHello := -1;
      inbound := new LinkState();
      outbound := new LinkState();
    }
  }

  /** The part of `InboundState` and `OutboundState` that one reader and one writer use. */
  class LinkState {
    var withinPaddingBuffers: bool
    var readerDirectCopy: bool
    var remainingCommand: int
    var remainingContent: int
    var remainingPadding: int
    var currentCommand: int
    var isPadding: bool
    var writerDirectCopy: bool

    function GetCounters(): Counters
      reads this
    {
      Counters(remainingCommand, remainingContent, remainingPadding, currentCommand)
    }

    ghost predicate Fresh()
      reads this
    {
      && withinPaddingBuffers && !readerDirectCopy
      && GetCounters() == Counters(-1, -1, -1, 0)
      && isPadding && !writerDirectCopy
    }

    constructor ()
      ensures Fresh()
    {
      withinPaddingBuffers, readerDirectCopy := true, false;
      remainingCommand, remainingContent, remainingPadding, currentCommand := -1, -1, -1, 0;
      isPadding, writerDirectCopy := true, false;
    }
  }
}
