/**
 * The pure mapping from a canonical trade to a platform trade: account
 * masking, security-id validation and trade-type normalisation.
 * Log output is not modelled; the one warning that matters to callers (the
 * security-id pattern check) is returned as a flag.
 */
module Transformer {
  import opened Wrappers
  import opened Text
  import opened Trades

  /** The literal that replaces all but the last four account characters. */
  const Mask: string := "****"

  /** What the transformation throws (`IllegalArgumentException`). */
  datatype TransformError = SecurityIdEmpty

  /** An account string that can leave the system: `****`, optionally followed by four characters. */
  predicate IsMasked(account: string)
  {
    (|account| == 4 || |account| == 8) && account[..4] == Mask
  }

  /** The three normalised trade types. */
  predicate IsTradeTypeCode(t: string)
  {
    t == "B" || t == "S" || t == "U"
  }

  // ---------------------------------------------------------------- account

  /**
   * Null or at most four characters: fully masked. Otherwise `****` followed
   * by the last four characters, and nothing else of the account.
   */
  function MaskAccountNumber(account: Option<string>): (masked: string)
    ensures IsMasked(masked)
    ensures account.None? || |account.value| <= 4 ==> masked == Mask
    ensures account.Some? && |account.value| > 4 ==>
      |masked| == 8 &&
      forall i :: 4 <= i < 8 ==> masked[i] == account.value[|account.value| - 8 + i]
  {
    if account.None? || |account.value| <= 4 then Mask
    else Mask + account.value[|account.value| - 4..]
  }

  /** The mask reveals nothing but the last four characters: accounts that share them mask alike. */
  lemma MaskDependsOnlyOnLastFour(a: string, b: string)
    requires |a| > 4 && |b| > 4
    requires a[|a| - 4..] == b[|b| - 4..]
    ensures MaskAccountNumber(Some(a)) == MaskAccountNumber(Some(b))
  {
  }

  /** Masking an already masked account changes nothing. */
  lemma MaskIsIdempotent(account: Option<string>)
    ensures MaskAccountNumber(Some(MaskAccountNumber(account))) == MaskAccountNumber(account)
  {
    var m := MaskAccountNumber(account);
    if |m| == 8 {
      assert m == Mask + m[4..];
    }
  }

  // ---------------------------------------------------------------- security id

  /** `^[A-Z0-9]{3,}$`: at least three characters, each an upper-case letter or a digit. */
  function MatchesSecurityIdPattern(id: string): (matches: bool)
    ensures matches ==> IsUpperCased(id) && !IsBlank(id)
  {
    var allowed := forall i :: 0 <= i < |id| ==> IsUpperAscii(id[i]) || '0' <= id[i] <= '9';
    assert allowed && |id| >= 3 ==> !IsWhitespace(id[0]);
    |id| >= 3 && allowed
  }

  /** The accepted security id and whether its format drew a warning. */
  datatype FormattedSecurityId = FormattedSecurityId(id: string, warning: bool)

  /**
   * Rejects a null or blank id; otherwise returns it upper-cased. A mismatch
   * against the pattern only raises the warning flag.
   */
  function ValidateAndFormatSecurityId(securityId: Option<string>): (r: Result<FormattedSecurityId, TransformError>)
    ensures r.Failure? <==> securityId.None? || IsBlank(securityId.value)
    ensures r.Success? ==>
      && |r.value.id| == |securityId.value|
      && IsUpperCased(r.value.id)
      && r.value.id == ToUpper(securityId.value)
      && (r.value.warning <==> !MatchesSecurityIdPattern(r.value.id))
  {
    if securityId.None? || IsBlank(securityId.value) then
      Failure(SecurityIdEmpty)
    else
      var upper := ToUpper(securityId.value);
      ToUpperUpperCases(securityId.value);
      Success(FormattedSecurityId(upper, !MatchesSecurityIdPattern(upper)))
  }

  /** Feeding an accepted id back in accepts it again, unchanged. */
  lemma {:induction false} SecurityIdFormattingIsIdempotent(securityId: Option<string>)
    requires ValidateAndFormatSecurityId(securityId).Success?
    ensures var f := ValidateAndFormatSecurityId(securityId).value;
      ValidateAndFormatSecurityId(Some(f.id)) == Success(f)
  {
    var s := securityId.value;
    ToUpperKeepsBlankness(s);
    ToUpperUpperCases(s);
  }

  // ---------------------------------------------------------------- trade type

  /** The `switch` on the upper-cased, trimmed spelling. */
  function TradeTypeCode(normalized: string): (code: string)
    ensures IsTradeTypeCode(code)
    ensures code == "B" <==> normalized == "BUY" || normalized == "B"
    ensures code == "S" <==> normalized == "SELL" || normalized == "S"
  {
    if normalized == "BUY" || normalized == "B" then "B"
    else if normalized == "SELL" || normalized == "S" then "S"
    else "U"
  }

  /**
   * Upper-cases, trims, then maps `BUY`/`B` to `B` and `SELL`/`S` to `S`;
   * everything else, null included, is `U`. Never fails.
   */
  function NormalizeTradeType(tradeType: Option<string>): (code: string)
    ensures IsTradeTypeCode(code)
    ensures tradeType.None? ==> code == "U"
  {
    if tradeType.None? then "U"
    else TradeTypeCode(Trim(ToUpper(tradeType.value)))
  }

  /** Case does not matter: spellings with the same upper-case form normalise alike. */
  lemma NormalizeIgnoresCase(a: string, b: string)
    requires ToUpper(a) == ToUpper(b)
    ensures NormalizeTradeType(Some(a)) == NormalizeTradeType(Some(b))
  {
  }

  /** Surrounding blanks (characters up to U+0020) do not matter. */
  lemma {:induction false} NormalizeIgnoresPadding(before: string, t: string, after: string)
    requires AllTrimmable(before) && AllTrimmable(after)
    ensures NormalizeTradeType(Some(before + t + after)) == NormalizeTradeType(Some(t))
  {
    UpperTrimIgnoresPadding(before, t, after);
  }

  /** Each of the codes `B`, `S` and `U` normalises to itself. */
  lemma CodesAreFixedPoints(code: string)
    requires IsTradeTypeCode(code)
    ensures NormalizeTradeType(Some(code)) == code
  {
    assert Trim(ToUpper(code)) == code by {
      assert |code| == 1 && 'A' <= code[0] <= 'Z';
      UpperTrimSingle(code);
    }
    assert TradeTypeCode(code) == code;
  }

  /** Normalising a normalised code returns it. */
  lemma NormalizeIsIdempotent(tradeType: Option<string>)
    ensures NormalizeTradeType(Some(NormalizeTradeType(tradeType))) == NormalizeTradeType(tradeType)
  {
    CodesAreFixedPoints(NormalizeTradeType(tradeType));
  }

  // ---------------------------------------------------------------- the trade

  /**
   * The platform trade: masked account, validated security id, normalised type,
   * amount and timestamp as given. Fails exactly when the security id is null
   * or blank; nothing else (the account included) can make it fail.
   */
  function TransformToPlatformTrade(trade: CanonicalTrade): (r: Result<PlatformTrade, TransformError>)
    ensures r.Failure? <==> trade.securityId.None? || IsBlank(trade.securityId.value)
    ensures r.Success? ==>
      && IsMasked(r.value.account)
      && r.value.account == MaskAccountNumber(trade.accountNumber)
      && r.value.security == ToUpper(trade.securityId.value)
      && !IsBlank(r.value.security)
      && IsTradeTypeCode(r.value.tradeType)
      && r.value.tradeType == NormalizeTradeType(trade.tradeType)
      && r.value.amount == trade.amount
      && r.value.timestamp == trade.timestamp
  {
    var maskedAccount := MaskAccountNumber(trade.accountNumber);
    match ValidateAndFormatSecurityId(trade.securityId)
    case Failure(e) => Failure(e)
    case Success(security) =>
      ToUpperKeepsBlankness(trade.securityId.value);
      Success(PlatformTrade(maskedAccount, security.id, NormalizeTradeType(trade.tradeType),
                            trade.amount, trade.timestamp))
  }

  /** The audit id (and the quantity and price) play no part in the platform trade. */
  lemma TransformIgnoresAuditFields(trade: CanonicalTrade, id: Option<string>, quantity: Option<int>, price: Option<Decimal>)
    ensures TransformToPlatformTrade(trade.(canonicalId := id, quantity := quantity, price := price))
         == TransformToPlatformTrade(trade)
  {
  }

  /** A trade without an account number still transforms, to the fully masked account. */
  lemma NullAccountIsFullyMasked(trade: CanonicalTrade)
    requires trade.accountNumber.None?
    requires trade.securityId.Some? && !IsBlank(trade.securityId.value)
    ensures TransformToPlatformTrade(trade).Success?
    ensures TransformToPlatformTrade(trade).value.account == Mask
  {
  }

  // ---------------------------------------------------------------- examples

  /** Worked examples of masking. */
  lemma MaskExamples()
    ensures MaskAccountNumber(Some("9876543210")) == "****3210"
    ensures MaskAccountNumber(Some("12")) == "****"
    ensures MaskAccountNumber(None) == "****"
  {
    assert "9876543210"[6..] == "3210";
  }

  /** Worked example: a well-formed id is upper-cased without a warning. */
  lemma SecurityIdExample()
    ensures ValidateAndFormatSecurityId(Some("abc123")) == Success(FormattedSecurityId("ABC123", false))
  {
    assert !IsBlank("abc123") by { assert !IsWhitespace("abc123"[0]); }
    assert ToUpper("abc123") == "ABC123";
    assert MatchesSecurityIdPattern("ABC123");
  }

  /** Worked example: an id off the pattern is still accepted, only with a warning. */
  lemma SecurityIdWarningExample()
    ensures ValidateAndFormatSecurityId(Some("ab-12")) == Success(FormattedSecurityId("AB-12", true))
  {
    assert !IsBlank("ab-12") by { assert !IsWhitespace("ab-12"[0]); }
    assert ToUpper("ab-12") == "AB-12";
    assert !MatchesSecurityIdPattern("AB-12") by { assert "AB-12"[2] == '-'; }
  }

  /** Worked examples of rejection: a blank id and a null id. */
  lemma SecurityIdRejectExamples()
    ensures ValidateAndFormatSecurityId(Some(" \t")).Failure?
    ensures ValidateAndFormatSecurityId(None).Failure?
  {
    assert IsBlank(" \t");
  }

  /** Worked example: the full word `buy` normalises to `B`. */
  lemma TradeTypeBuyExample()
    ensures NormalizeTradeType(Some("buy")) == "B"
  {
    assert Trim(ToUpper("buy")) == "BUY" by {
      assert ToUpper("buy") == "BUY";
      TrimKeepsSolid("BUY");
    }
  }

  /** Worked example: a padded `b` normalises to `B`. */
  lemma TradeTypePaddedBuyExample()
    ensures NormalizeTradeType(Some(" b ")) == "B"
  {
    assert Trim(ToUpper(" b ")) == "B" by {
      assert ToUpper(" b ") == " " + "B" + " ";
      TrimIgnoresPadding(" ", "B", " ");
      TrimKeepsSolid("B");
    }
  }

  /** Worked example: the full word `SELL` normalises to `S`. */
  lemma TradeTypeSellExample()
    ensures NormalizeTradeType(Some("SELL")) == "S"
  {
    assert Trim(ToUpper("SELL")) == "SELL" by {
      assert ToUpper("SELL") == "SELL";
      TrimKeepsSolid("SELL");
    }
  }

  /** Worked example: lower-case `s` normalises to `S`. */
  lemma TradeTypeShortSellExample()
    ensures NormalizeTradeType(Some("s")) == "S"
  {
    assert Trim(ToUpper("s")) == "S" by {
      assert ToUpper("s") == "S";
      TrimKeepsSolid("S");
    }
  }

  /** Worked examples of normalisation to `U`. */
  lemma TradeTypeUnknownExamples()
    ensures NormalizeTradeType(Some("hold")) == "U"
    ensures NormalizeTradeType(None) == "U"
  {
    assert Trim(ToUpper("hold")) == "HOLD" by {
      assert ToUpper("hold") == "HOLD";
      TrimKeepsSolid("HOLD");
    }
    assert TradeTypeCode("HOLD") == "U" by {
      assert "HOLD"[0] != "SELL"[0];
    }
  }
}
