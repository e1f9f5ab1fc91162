/** Transmit receipts: the state a PDU's originator, the LLC and the MAC share. */
module TxReceipt {

  datatype TxState = Pending | Discarded | Transmitted | Lost | Acknowledged {
    // On the air, or further.
    predicate IsTransmitted() {
      Transmitted? || Lost? || Acknowledged?
    }

    // The three transitions below stop the program in any other state, so
    // every caller has to show that it is in the one they start from.
    function MarkTransmitted(): TxState
      requires Pending?
    {
      Transmitted
    }

    function MarkLost(): TxState
      requires Transmitted?
    {
      Lost
    }

    function MarkAcknowledged(): TxState
      requires Transmitted?
    {
      Acknowledged
    }

    function Reset(): TxState {
      Pending
    }
  }

  /** Complete an acknowledged transaction as lost from whatever state it is in. */
  function MarkReporterLost(state: TxState): TxState {
    match state
    case Acknowledged | Lost => state
    case Pending | Discarded => state.Reset().MarkTransmitted().MarkLost()
    case Transmitted => state.MarkLost()
  }

  function MarkSduAcknowledged(state: TxState): TxState {
    var sent := if state.Pending? then state.MarkTransmitted() else state;
    if sent.Transmitted? then sent.MarkAcknowledged() else sent
  }
}
