/** What the engine and the agents both call a trade, an event and a link. */
module Trades {

  /** Trade ids, numbered in their string order. */
  type TradeId = nat

  datatype EventType = NewEvent | AmendEvent | CancelEvent

  datatype LinkKind = RebookOf | SharedUrn | AlternateId | AgentLink
}
