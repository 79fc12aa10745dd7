/**
 * The records that flow through the pipeline: the canonical trade as it is
 * decoded from a file or the inbound feed, the masked platform trade, and the
 * envelope that is published.
 */
module Trades {
  import opened Wrappers

  /**
   * A `BigDecimal`, `unscaled * 10^-scale`. The pipeline only carries amounts
   * and prices through, so no arithmetic is defined on it.
   */
  datatype Decimal = Decimal(unscaled: int, scale: int)

  /** A `LocalDateTime`, carried through unchanged. */
  datatype DateTime = DateTime(year: int, month: int, day: int,
                               hour: int, minute: int, second: int, nano: int)

  /**
   * The raw trade. Every field may be null (`None`); `canonicalId` stays null
   * until the trade is recorded in the audit store.
   */
  datatype CanonicalTrade = CanonicalTrade(
    accountNumber: Option<string>,
    securityId: Option<string>,
    tradeType: Option<string>,
    quantity: Option<int>,
    price: Option<Decimal>,
    amount: Option<Decimal>,
    timestamp: Option<DateTime>,
    canonicalId: Option<string>)

  /** The downstream trade: masked account, upper-cased security, B/S/U type. */
  datatype PlatformTrade = PlatformTrade(
    account: string,
    security: string,
    tradeType: string,
    amount: Option<Decimal>,
    timestamp: Option<DateTime>)

  /** The published envelope: the deployment's platform id and the trade. */
  datatype PlatformTradeWrapper = PlatformTradeWrapper(platformId: string, trade: PlatformTrade)

  /** The trade as the audit store keeps it, carrying the id it was filed under. */
  function Stamp(trade: CanonicalTrade, id: string): (stamped: CanonicalTrade)
    ensures stamped.canonicalId == Some(id)
    ensures stamped.(canonicalId := trade.canonicalId) == trade
  {
    trade.(canonicalId := Some(id))
  }
}
