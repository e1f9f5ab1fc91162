/** PDUs of the original acknowledged advanced link that the data transfer phase exchanges. */
module AlPdu {
  import opened Wrappers
  import opened Fcs

  datatype AlData = AlData(finalSegment: bool, ackRequested: bool, ns: nat, segment: nat, bits: Bits)

  // Length 0 acknowledges the whole TL-SDU, 63 asks for all of it again, and 1..62 covers
  // that many segment positions from the first missing one.
  datatype AlAckBlock = AlAckBlock(nr: nat, length: nat, firstMissing: Option<nat>, bitmap: seq<bool>) {
    predicate IsPositive() {
      length == 0
    }

    // What the encoder demands of a block before it puts it on the air.
    predicate IsEncodable() {
      && nr <= 7 && length <= 63
      && (1 <= length <= 62 <==> firstMissing.Some?)
      && (firstMissing.Some? ==> firstMissing.value <= 255)
      && |bitmap| == if 1 <= length <= 62 then length - 1 else 0
    }
  }

  datatype AlAck = AlAck(receiverReady: bool, blocks: seq<AlAckBlock>) {
    predicate IsEncodable() {
      1 <= |blocks| <= 3 && forall i | 0 <= i < |blocks| :: blocks[i].IsEncodable()
    }
  }

  function Positive(nr: nat): AlAckBlock {
    AlAckBlock(nr, 0, None, [])
  }

  function WholeAgain(nr: nat): AlAckBlock {
    AlAckBlock(nr, 63, None, [])
  }
}
