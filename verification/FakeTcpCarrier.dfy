/** Constants of the carrier format, which the transport and the header rewriter share. */
module FakeTcpCarrier {
  const CARRIER_MAGIC := 0x4e59
  const CARRIER_HEADER_SIZE := 12
  const FRAME_HEADER_SIZE := 2
  const MIN_FRAME_PAYLOAD := 32

  const FLAG_FIN := 0x01
  const FLAG_SYN := 0x02
  const FLAG_RST := 0x04
  const FLAG_ACK := 0x10
}
