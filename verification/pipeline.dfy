/**
 * The orchestrator: per-record processing (audit, transform, wrap, publish)
 * and the file-upload entry point that runs it over every decoded record.
 *
 * The message broker is replaced by an outbox, the sequence of messages
 * handed to the publisher in order, each with the routing key it was sent
 * under. Decoding CSV and JSON is not modelled: an upload comes with the
 * records its decoder yields.
 */
module Pipeline {
  import opened Wrappers
  import opened Text
  import opened Trades
  import opened Transformer
  import opened Audit

  // ---------------------------------------------------------------- publishing

  /** A message as handed to the broker: routing key and payload. */
  datatype OutboundMessage = OutboundMessage(key: string, wrapper: PlatformTradeWrapper)

  /** The routing key of a published wrapper: the trade's (upper-cased) security id. */
  function KeyOf(wrapper: PlatformTradeWrapper): string
  {
    wrapper.trade.security
  }

  /**
   * What may leave the system: keyed by its security, stamped with this
   * deployment's platform id, account masked, type normalised, security
   * upper-cased and not blank.
   */
  predicate IsSafeMessage(platformId: string, m: OutboundMessage)
  {
    && m.key == m.wrapper.trade.security
    && m.wrapper.platformId == platformId
    && IsMasked(m.wrapper.trade.account)
    && IsTradeTypeCode(m.wrapper.trade.tradeType)
    && IsUpperCased(m.wrapper.trade.security)
    && !IsBlank(m.wrapper.trade.security)
  }

  /** The messages one trade gives rise to: one if it transforms, none otherwise. */
  function PublicationsOf(platformId: string, trade: CanonicalTrade): (out: seq<OutboundMessage>)
    ensures |out| <= 1
    ensures |out| == 1 <==> TransformToPlatformTrade(trade).Success?
    ensures |out| == 1 ==>
      && out[0].wrapper == PlatformTradeWrapper(platformId, TransformToPlatformTrade(trade).value)
      && IsSafeMessage(platformId, out[0])
  {
    match TransformToPlatformTrade(trade)
    case Failure(_) => []
    case Success(platformTrade) =>
      ToUpperUpperCases(trade.securityId.value);
      var wrapper := PlatformTradeWrapper(platformId, platformTrade);
      [OutboundMessage(KeyOf(wrapper), wrapper)]
  }

  /**
   * There is no account-number check: a trade without an account is still
   * published, with the account fully masked.
   */
  lemma NullAccountIsPublished(platformId: string, trade: CanonicalTrade)
    requires trade.accountNumber.None?
    requires trade.securityId.Some? && !IsBlank(trade.securityId.value)
    ensures var security := ToUpper(trade.securityId.value);
      PublicationsOf(platformId, trade)
      == [OutboundMessage(security, PlatformTradeWrapper(platformId,
            PlatformTrade(Mask, security, NormalizeTradeType(trade.tradeType), trade.amount, trade.timestamp)))]
  {
    NullAccountIsFullyMasked(trade);
  }

  /** The messages a run of trades gives rise to, in order. */
  function PublicationsOfAll(platformId: string, trades: seq<CanonicalTrade>): seq<OutboundMessage>
  {
    if trades == [] then []
    else PublicationsOfAll(platformId, trades[..|trades| - 1]) + PublicationsOf(platformId, trades[|trades| - 1])
  }

  /** How many of the trades pass transformation. */
  function CountTransformable(trades: seq<CanonicalTrade>): nat
  {
    if trades == [] then 0
    else CountTransformable(trades[..|trades| - 1])
         + (if TransformToPlatformTrade(trades[|trades| - 1]).Success? then 1 else 0)
  }

  /** A run publishes one message per transformable trade, so never more than it has trades. */
  lemma {:induction false} PublicationsCount(platformId: string, trades: seq<CanonicalTrade>)
    ensures |PublicationsOfAll(platformId, trades)| == CountTransformable(trades) <= |trades|
    decreases |trades|
  {
    if trades != [] {
      PublicationsCount(platformId, trades[..|trades| - 1]);
    }
  }

  /** Every message a run publishes is safe to leave the system. */
  lemma {:induction false} PublicationsAreSafe(platformId: string, trades: seq<CanonicalTrade>)
    ensures forall m :: m in PublicationsOfAll(platformId, trades) ==> IsSafeMessage(platformId, m)
    decreases |trades|
  {
    if trades != [] {
      PublicationsAreSafe(platformId, trades[..|trades| - 1]);
    }
  }

  /** If no trade has a usable security id, a run publishes nothing. */
  lemma {:induction false} InvalidTradesPublishNothing(platformId: string, trades: seq<CanonicalTrade>)
    requires forall i :: 0 <= i < |trades| ==>
      trades[i].securityId.None? || IsBlank(trades[i].securityId.value)
    ensures PublicationsOfAll(platformId, trades) == []
    decreases |trades|
  {
    if trades != [] {
      InvalidTradesPublishNothing(platformId, trades[..|trades| - 1]);
    }
  }

  /** If every trade has a usable security id, a run publishes exactly one message per trade. */
  lemma {:induction false} AllValidPublishAll(platformId: string, trades: seq<CanonicalTrade>)
    requires forall i :: 0 <= i < |trades| ==>
      trades[i].securityId.Some? && !IsBlank(trades[i].securityId.value)
    ensures |PublicationsOfAll(platformId, trades)| == |trades|
    decreases |trades|
  {
    if trades != [] {
      AllValidPublishAll(platformId, trades[..|trades| - 1]);
    }
  }

  lemma PublicationsOfAllSnoc(platformId: string, trades: seq<CanonicalTrade>, trade: CanonicalTrade)
    ensures PublicationsOfAll(platformId, trades + [trade])
         == PublicationsOfAll(platformId, trades) + PublicationsOf(platformId, trade)
  {
    assert (trades + [trade])[..|trades|] == trades;
  }

  /** The trades as the audit store files them: each stamped with its id. */
  function StampAll(trades: seq<CanonicalTrade>, ids: seq<string>): (stamped: seq<CanonicalTrade>)
    requires |ids| == |trades|
    ensures |stamped| == |trades|
    ensures forall i :: 0 <= i < |trades| ==>
      stamped[i].canonicalId == Some(ids[i]) && stamped[i].(canonicalId := trades[i].canonicalId) == trades[i]
  {
    seq(|trades|, i requires 0 <= i < |trades| => Stamp(trades[i], ids[i]))
  }

  lemma SplitAppended<T>(s: seq<T>, t: seq<T>)
    ensures (s + t)[..|s|] == s && (s + t)[|s|..] == t
  {
  }

  /** One more record processed: the audit and publication prefixes grow by it. */
  lemma RecordStep(platformId: string, records: seq<CanonicalTrade>, done: nat, ids: seq<string>, id: string)
    requires done < |records| && |ids| == done
    ensures StampAll(records[..done + 1], ids + [id])
         == StampAll(records[..done], ids) + [Stamp(records[done], id)]
    ensures PublicationsOfAll(platformId, records[..done + 1])
         == PublicationsOfAll(platformId, records[..done]) + PublicationsOf(platformId, records[done])
  {
    assert records[..done + 1] == records[..done] + [records[done]];
    StampAllSnoc(records[..done], ids, records[done], id);
    PublicationsOfAllSnoc(platformId, records[..done], records[done]);
  }

  /**
   * The loop step of an upload, on values: appending one more id, stamped
   * trade and publication to the running totals extends them by one record.
   */
  lemma ExtendRun(platformId: string, records: seq<CanonicalTrade>, done: nat, ids: seq<string>, id: string,
                  issued0: seq<string>, trail0: seq<CanonicalTrade>, outbox0: seq<OutboundMessage>)
    requires done < |records| && |ids| == done
    ensures issued0 + ids + [id] == issued0 + (ids + [id])
    ensures trail0 + StampAll(records[..done], ids) + [Stamp(records[done], id)]
         == trail0 + StampAll(records[..done + 1], ids + [id])
    ensures outbox0 + PublicationsOfAll(platformId, records[..done]) + PublicationsOf(platformId, records[done])
         == outbox0 + PublicationsOfAll(platformId, records[..done + 1])
  {
    RecordStep(platformId, records, done, ids, id);
  }

  lemma StampAllSnoc(trades: seq<CanonicalTrade>, ids: seq<string>, trade: CanonicalTrade, id: string)
    requires |ids| == |trades|
    ensures StampAll(trades + [trade], ids + [id]) == StampAll(trades, ids) + [Stamp(trade, id)]
  {
  }

  // ---------------------------------------------------------------- file type

  datatype FileFormat = Csv | Json

  /** What the upload throws for a file it does not handle (`IllegalArgumentException`). */
  datatype UploadError = UnsupportedFileType

  /**
   * Routing on the lower-cased file name: `.csv`, else `.json`, else none (a
   * null name included). A routed name always carries the suffix it was
   * routed by.
   */
  function FileFormatOf(filename: Option<string>): (format: Option<FileFormat>)
    ensures format.Some? ==> filename.Some?
    ensures format == Some(Csv) ==> EndsWith(ToLower(filename.value), ".csv")
    ensures format == Some(Json) ==> EndsWith(ToLower(filename.value), ".json")
  {
    if filename.Some? && EndsWith(ToLower(filename.value), ".csv") then Some(Csv)
    else if filename.Some? && EndsWith(ToLower(filename.value), ".json") then Some(Json)
    else None
  }

  /** Names that differ only in letter case route alike. */
  lemma FileFormatIgnoresCase(a: string, b: string)
    requires ToLower(a) == ToLower(b)
    ensures FileFormatOf(Some(a)) == FileFormatOf(Some(b))
  {
  }

  /** Any name ending in `.csv`, in any letter case, is routed to the CSV path. */
  lemma {:induction false} FileFormatCsvSuffix(stem: string, suffix: string)
    requires ToLower(suffix) == ".csv"
    ensures FileFormatOf(Some(stem + suffix)) == Some(Csv)
  {
    ToLowerAppend(stem, suffix);
  }

  /** Any name ending in `.json`, in any letter case, is routed to the JSON path. */
  lemma {:induction false} FileFormatJsonSuffix(stem: string, suffix: string)
    requires ToLower(suffix) == ".json"
    ensures FileFormatOf(Some(stem + suffix)) == Some(Json)
  {
    ToLowerAppend(stem, suffix);
    var n := ToLower(stem + suffix);
    assert n[|n| - 5..] == ".json";
    assert n[|n| - 4] == 'j';
  }

  /** A missing name, and any name whose lower-cased form has neither suffix, are rejected. */
  lemma FileFormatRejects(filename: Option<string>)
    requires filename.Some? ==>
      !EndsWith(ToLower(filename.value), ".csv") && !EndsWith(ToLower(filename.value), ".json")
    ensures FileFormatOf(filename) == None
  {
  }

  // ---------------------------------------------------------------- the service

  class TradeService {
    /** The deployment's platform id, stamped on every published wrapper. */
    const platformId: string
    /** The audit store every processed trade is filed in. */
    const store: TradeStore
    /** The messages handed to the publisher so far, in order. */
    var outbox: seq<OutboundMessage>

    ghost predicate Valid()
      reads this, store
    {
      && store.Valid()
      && (forall m :: m in outbox ==> IsSafeMessage(platformId, m))
    }

    constructor (platformId: string, store: TradeStore)
      requires store.Valid()
      ensures Valid()
      ensures this.platformId == platformId && this.store == store && outbox == []
    {
      this.platformId := platformId;
      this.store := store;
      outbox := [];
    }

    /** Hands a wrapper to the broker, keyed by its security id; never fails for the caller. */
    method Publish(wrapper: PlatformTradeWrapper)
      modifies this`outbox
      ensures outbox == old(outbox) + [OutboundMessage(KeyOf(wrapper), wrapper)]
    {
      outbox := outbox + [OutboundMessage(KeyOf(wrapper), wrapper)];
    }

    /**
     * Files the trade in the audit store first, unconditionally, then
     * transforms it. A failed transformation is contained: the trade stays
     * audited and nothing is published. Otherwise exactly one wrapper is
     * published. `auditId` is the id the trade was filed under.
     */
    method ProcessTrade(trade: CanonicalTrade) returns (ghost auditId: string)
      requires Valid()
      modifies this, store
      ensures Valid()
      ensures auditId !in old(store.entries)
      ensures store.entries == old(store.entries)[auditId := Stamp(trade, auditId)]
      ensures store.issued == old(store.issued) + [auditId]
      ensures store.trail == old(store.trail) + [Stamp(trade, auditId)]
      ensures outbox == old(outbox) + PublicationsOf(platformId, trade)
    {
      var canonicalId := store.Store(trade);
      auditId := canonicalId;
      // The stored object itself now carries the id; the transformation sees it.
      var audited := Stamp(trade, canonicalId);
      TransformIgnoresAuditFields(trade, audited.canonicalId, trade.quantity, trade.price);
      var transformed := TransformToPlatformTrade(audited);
      match transformed
      case Failure(_) =>
        // logged with the audit id; nothing is published
      case Success(platformTrade) =>
        var wrapper := PlatformTradeWrapper(platformId, platformTrade);
        Publish(wrapper);
    }

    /** Runs every record of a CSV file through `ProcessTrade`, counting them. */
    method ProcessCsv(records: seq<CanonicalTrade>) returns (count: nat)
      requires Valid()
      modifies this, store
      ensures Valid()
      ensures count == |records|
      ensures |store.issued| == |old(store.issued)| + |records|
      ensures store.issued[..|old(store.issued)|] == old(store.issued)
      ensures store.trail == old(store.trail) + StampAll(records, store.issued[|old(store.issued)|..])
      ensures outbox == old(outbox) + PublicationsOfAll(platformId, records)
    {
      ghost var issued0, trail0, outbox0 := store.issued, store.trail, outbox;
      ghost var ids: seq<string> := [];
      count := 0;
      while count < |records|
        invariant Valid()
        invariant count <= |records| && |ids| == count
        invariant store.issued == issued0 + ids
        invariant store.trail == trail0 + StampAll(records[..count], ids)
        invariant outbox == outbox0 + PublicationsOfAll(platformId, records[..count])
      {
        var trade := records[count];
        ghost var id := ProcessTrade(trade);
        ExtendRun(platformId, records, count, ids, id, issued0, trail0, outbox0);
        ids := ids + [id];
        count := count + 1;
      }
      assert records[..count] == records;
      SplitAppended(issued0, ids);
    }

    /** Runs every record of a JSON array through `ProcessTrade`; the count is the array's size. */
    method ProcessJson(records: seq<CanonicalTrade>) returns (count: nat)
      requires Valid()
      modifies this, store
      ensures Valid()
      ensures count == |records|
      ensures |store.issued| == |old(store.issued)| + |records|
      ensures store.issued[..|old(store.issued)|] == old(store.issued)
      ensures store.trail == old(store.trail) + StampAll(records, store.issued[|old(store.issued)|..])
      ensures outbox == old(outbox) + PublicationsOfAll(platformId, records)
    {
      ghost var issued0, trail0, outbox0 := store.issued, store.trail, outbox;
      ghost var ids: seq<string> := [];
      for i := 0 to |records|
        invariant Valid()
        invariant |ids| == i
        invariant store.issued == issued0 + ids
        invariant store.trail == trail0 + StampAll(records[..i], ids)
        invariant outbox == outbox0 + PublicationsOfAll(platformId, records[..i])
      {
        ghost var id := ProcessTrade(records[i]);
        ExtendRun(platformId, records, i, ids, id, issued0, trail0, outbox0);
        ids := ids + [id];
      }
      assert records[..|records|] == records;
      SplitAppended(issued0, ids);
      count := |records|;
    }

    /**
     * The upload entry point. An unsupported file name is rejected before any
     * record is touched; otherwise every decoded record is processed once, in
     * order, and all of them are counted, whether or not they were published.
     */
    method ProcessFileUpload(filename: Option<string>, decoded: seq<CanonicalTrade>)
      returns (result: Result<nat, UploadError>)
      requires Valid()
      modifies this, store
      ensures Valid()
      ensures FileFormatOf(filename).None? ==>
        && result == Failure(UnsupportedFileType)
        && store.entries == old(store.entries) && store.issued == old(store.issued)
        && store.trail == old(store.trail) && outbox == old(outbox)
      ensures FileFormatOf(filename).Some? ==>
        && result == Success(|decoded|)
        && |store.issued| == |old(store.issued)| + |decoded|
        && store.issued[..|old(store.issued)|] == old(store.issued)
        && store.trail == old(store.trail) + StampAll(decoded, store.issued[|old(store.issued)|..])
        && outbox == old(outbox) + PublicationsOfAll(platformId, decoded)
    {
      match FileFormatOf(filename)
      case Some(Csv) =>
        var count := ProcessCsv(decoded);
        result := Success(count);
      case Some(Json) =>
        var count := ProcessJson(decoded);
        result := Success(count);
      case None =>
        result := Failure(UnsupportedFileType);
    }
  }
}
