/** Balance and transaction-history queries against the blockchain-data endpoint, and
    the trimming of the formatted balance. The HTTP exchange is an input: each query
    states which request it makes (None: none at all) and maps the response it is
    given to the reply the caller sees. */
module Balance {
  import opened Wrappers
  import opened Networks

  const BaseUrl: string := "https://rest.cryptoapis.io/v2"
  const UnsupportedType: string := "Unsupported wallet type"

  /** The endpoint for `resource` ("balance" or "transactions") of an address. */
  function AddressUrl(network: string, address: string, resource: string): string
  {
    BaseUrl + "/blockchain-data/" + network + "/addresses/" + address + "/" + resource
  }

  /** A reply is a plain message or a structured value; `Raised` is an exception that
      escapes the query instead. */
  datatype Reply<+T> = Text(message: string) | Value(value: T) | Raised(reason: string)

  /** The request a query made, if any, and the reply it returned. */
  datatype Query<+T> = Query(request: Option<string>, reply: Reply<T>)

  // ---------------------------------------------------------------------------
  // Trimming the formatted balance

  /** `s` without its trailing run of `c` characters. */
  function RStrip(s: string, c: char): (r: string)
    ensures r <= s
    ensures r == [] || r[|r| - 1] != c
    ensures forall i :: |r| <= i < |s| ==> s[i] == c
    decreases |s|
  {
    if |s| > 0 && s[|s| - 1] == c then RStrip(s[..|s| - 1], c) else s
  }

  /** The three properties of RStrip's contract pin its result down. */
  lemma RStripUnique(s: string, c: char, r: string)
    requires r <= s
    requires r == [] || r[|r| - 1] != c
    requires forall i :: |r| <= i < |s| ==> s[i] == c
    ensures r == RStrip(s, c)
  {
    var q := RStrip(s, c);
    if |r| < |q| {
      assert false;
    } else if |q| < |r| {
      assert false;
    }
  }

  /** Stripping a concatenation: the tail is stripped first, and the head only when the
      whole tail was made of `c`. */
  lemma RStripAppend(a: string, b: string, c: char)
    ensures RStrip(a + b, c) == if RStrip(b, c) == [] then RStrip(a, c) else a + RStrip(b, c)
  {
    var rb := RStrip(b, c);
    if rb == [] {
      var ra := RStrip(a, c);
      assert ra <= a + b;
      forall i | |ra| <= i < |a + b| ensures (a + b)[i] == c {
        if i >= |a| { assert (a + b)[i] == b[i - |a|]; }
      }
      RStripUnique(a + b, c, ra);
    } else {
      var r := a + rb;
      assert r <= a + b;
      assert r[|r| - 1] == rb[|rb| - 1];
      forall i | |r| <= i < |a + b| ensures (a + b)[i] == c {
        assert (a + b)[i] == b[i - |a|];
      }
      RStripUnique(a + b, c, r);
    }
  }

  /** The balance shown to the user: trailing zeros dropped, then a dangling point. */
  function Trim(s: string): (r: string)
    ensures r <= s
  {
    RStrip(RStrip(s, '0'), '.')
  }

  predicate IsDigits(s: string)
  {
    forall i :: 0 <= i < |s| ==> '0' <= s[i] <= '9'
  }

  /** The shape of an 8-decimal fixed-point rendering: digits, a point, eight digits. */
  predicate FixedPoint(integral: string, fraction: string)
  {
    |integral| > 0 && IsDigits(integral) && |fraction| == 8 && IsDigits(fraction)
  }

  /** On a fixed-point string, trimming keeps the integer part intact, strips trailing
      zeros of the fraction only, and drops the point when no fractional digit is left. */
  lemma TrimFixedPoint(integral: string, fraction: string)
    requires FixedPoint(integral, fraction)
    ensures Trim(integral + "." + fraction) ==
      if RStrip(fraction, '0') == [] then integral else integral + "." + RStrip(fraction, '0')
  {
    var f := RStrip(fraction, '0');
    RStripAppend(integral + ".", fraction, '0');
    if f == [] {
      assert RStrip(integral + ".", '0') == integral + ".";
      RStripAppend(integral, ".", '.');
      assert RStrip(".", '.') == [];
      assert RStrip(integral, '.') == integral;
    } else {
      var t := integral + "." + f;
      assert t[|t| - 1] == f[|f| - 1];
      assert f[|f| - 1] == fraction[|f| - 1];
      assert RStrip(t, '.') == t;
    }
  }

  /** A trimmed balance that keeps a fractional digit is left alone by trimming:
      integer digits, a point, and digits that do not end in zero. */
  lemma TrimFixesFraction(integral: string, digits: string)
    requires |integral| > 0 && IsDigits(integral)
    requires 0 < |digits| <= 8 && IsDigits(digits) && digits[|digits| - 1] != '0'
    ensures Trim(integral + "." + digits) == integral + "." + digits
  {
    var t := integral + "." + digits;
    assert t[|t| - 1] == digits[|digits| - 1];
    assert RStrip(t, '0') == t;
    assert RStrip(t, '.') == t;
  }

  /** Trimming is idempotent on fixed-point strings whose fraction keeps a digit. */
  lemma TrimIdempotentWithFraction(integral: string, fraction: string)
    requires FixedPoint(integral, fraction)
    requires RStrip(fraction, '0') != []
    ensures Trim(Trim(integral + "." + fraction)) == Trim(integral + "." + fraction)
  {
    TrimFixedPoint(integral, fraction);
    var f := RStrip(fraction, '0');
    assert f[|f| - 1] == fraction[|f| - 1];
    TrimFixesFraction(integral, f);
  }

  /** A whole balance loses its point and its eight zeros, and nothing else. */
  lemma TrimWholeNumber(integral: string)
    requires |integral| > 0 && IsDigits(integral)
    ensures Trim(integral + ".00000000") == integral
  {
    assert integral + ".00000000" == integral + "." + "00000000";
    RStripUnique("00000000", '0', "");
    TrimFixedPoint(integral, "00000000");
  }

  /** In general trimming is not idempotent: a whole number loses its own trailing
      zeros on a second pass. */
  lemma TrimNotIdempotent()
    ensures Trim("10.00000000") == "10"
    ensures Trim(Trim("10.00000000")) == "1"
  {
    RStripUnique("10.00000000", '0', "10.");
    RStripUnique("10.", '.', "10");
    RStripUnique("10", '0', "1");
    RStripUnique("1", '.', "1");
  }

  /** A fractional balance keeps its significant fractional digits. */
  lemma TrimFractionExample()
    ensures Trim("1.50000000") == "1.5"
  {
    RStripUnique("1.50000000", '0', "1.5");
    RStripUnique("1.5", '.', "1.5");
  }

  /** Whole balances are shown without a point; a zero balance as "0", not as an empty
      string. */
  lemma TrimWholeExamples()
    ensures Trim("2.00000000") == "2"
    ensures Trim("0.00000000") == "0"
  {
    TrimWholeNumber("2");
    assert "2" + ".00000000" == "2.00000000";
    TrimWholeNumber("0");
    assert "0" + ".00000000" == "0.00000000";
  }

  // ---------------------------------------------------------------------------
  // Balance

  /** The confirmed amount as the endpoint gave it, and its 8-decimal rendering when it
      parses as a number (None: the conversion fails). */
  datatype Amount = Amount(raw: string, fixed8: Option<string>)

  /** What the balance request produced once it was made. */
  datatype BalanceResponse =
    | RequestFailed(reason: string)   // connection failure, non-2xx status or undecodable body
    | Unexpected(reason: string)      // any other failure while reading the body
    | Body(amount: Option<Amount>, unit: Option<string>)

  datatype BalanceTotal = BalanceTotal(total: string, unit: string)

  function BalanceUrl(address: string, walletType: string): Option<string>
  {
    match NetworkFor(walletType)
    case None => None
    case Some(network) => Some(AddressUrl(network, address, "balance"))
  }

  /** The balance query: rejects an unsupported type before any request, otherwise maps
      the response to a trimmed total with its unit or to an error message. */
  function GetWalletBalance(address: string, walletType: string, response: BalanceResponse): (q: Query<BalanceTotal>)
    ensures q.request == BalanceUrl(address, walletType)
    ensures q.request.None? <==> NetworkFor(walletType).None?
    ensures q.request.None? ==> q.reply == Text(UnsupportedType)
    ensures q.request.Some? ==> q.reply == BalanceReply(response)
    ensures q.reply.Value? <==>
      q.request.Some? && response.Body? && response.amount.Some? && response.unit.Some?
      && response.amount.value.fixed8.Some?
    ensures q.reply.Value? ==>
      q.reply.value == BalanceTotal(Trim(response.amount.value.fixed8.value), response.unit.value)
    ensures !q.reply.Raised?
  {
    match BalanceUrl(address, walletType)
    case None => Query(None, Text(UnsupportedType))
    case Some(url) => Query(Some(url), BalanceReply(response))
  }

  /** The reply to a balance request that was made: each failure has its own message,
      and a parsed amount with a unit gives the trimmed total. Nothing escapes. */
  function BalanceReply(response: BalanceResponse): (r: Reply<BalanceTotal>)
    ensures response.RequestFailed? ==> r == Text("Failed to fetch balance: " + response.reason)
    ensures response.Unexpected? ==> r == Text("Failed to get balance: " + response.reason)
    ensures response.Body? && (response.amount.None? || response.unit.None?) ==>
      r == Text("Confirmed balance data not found in the response.")
    ensures response.Body? && response.amount.Some? && response.unit.Some? && response.amount.value.fixed8.None? ==>
      r == Text("Invalid amount format in the response.")
    ensures r.Value? <==>
      response.Body? && response.amount.Some? && response.unit.Some? && response.amount.value.fixed8.Some?
    ensures r.Value? ==>
      r.value.unit == response.unit.value && r.value.total <= response.amount.value.fixed8.value
      && r.value.total == Trim(response.amount.value.fixed8.value)
    ensures !r.Raised?
  {
    match response
    case RequestFailed(e) => Text("Failed to fetch balance: " + e)
    case Unexpected(e) => Text("Failed to get balance: " + e)
    case Body(amount, unit) =>
      if amount.None? || unit.None? then Text("Confirmed balance data not found in the response.")
      else match amount.value.fixed8
        case None => Text("Invalid amount format in the response.")
        case Some(s) => Value(BalanceTotal(Trim(s), unit.value))
  }

  /** An amount rendered as "1.50000000" in BTC is reported as {total "1.5", unit "BTC"},
      and one rendered as "2.00000000" as {total "2", unit "BTC"}. */
  lemma BalanceExamples(address: string)
    ensures GetWalletBalance(address, "Bitcoin", Body(Some(Amount("1.5", Some("1.50000000"))), Some("BTC"))).reply
            == Value(BalanceTotal("1.5", "BTC"))
    ensures GetWalletBalance(address, "Bitcoin", Body(Some(Amount("2", Some("2.00000000"))), Some("BTC"))).reply
            == Value(BalanceTotal("2", "BTC"))
  {
    TrimFractionExample();
    TrimWholeExamples();
  }

  // ---------------------------------------------------------------------------
  // Transaction history

  /** What the history request produced once it was made; items are passed on verbatim. */
  datatype HistoryResponse<+T> =
    | HistoryRequestFailed(reason: string)   // connection failure, non-2xx status or undecodable body
    | HistoryParseFailed(reason: string)     // a missing key in the decoded body
    | HistoryMalformed(reason: string)       // a body whose shape raises any other error
    | Items(items: seq<T>)

  function HistoryUrl(address: string, walletType: string): Option<string>
  {
    match NetworkFor(walletType)
    case None => None
    case Some(network) => Some(AddressUrl(network, address, "transactions"))
  }

  /** The history query: rejects an unsupported type before any request, otherwise
      returns the response's items unchanged or an error message. */
  function GetTransactionHistory<T>(address: string, walletType: string, response: HistoryResponse<T>): (q: Query<seq<T>>)
    ensures q.request == HistoryUrl(address, walletType)
    ensures q.request.None? <==> NetworkFor(walletType).None?
    ensures q.request.None? ==> q.reply == Text(UnsupportedType)
    ensures q.reply.Value? <==> q.request.Some? && response.Items?
    ensures q.reply.Value? ==> q.reply.value == response.items
    ensures q.request.Some? && response.HistoryRequestFailed? ==>
      q.reply == Text("Failed to fetch transaction history: " + response.reason)
    ensures q.request.Some? && response.HistoryParseFailed? ==>
      q.reply == Text("Failed to parse transaction history data: " + response.reason)
    ensures q.reply.Raised? <==> q.request.Some? && response.HistoryMalformed?
  {
    match HistoryUrl(address, walletType)
    case None => Query(None, Text(UnsupportedType))
    case Some(url) =>
      match response
      case HistoryRequestFailed(e) => Query(Some(url), Text("Failed to fetch transaction history: " + e))
      case HistoryParseFailed(e) => Query(Some(url), Text("Failed to parse transaction history data: " + e))
      case HistoryMalformed(e) => Query(Some(url), Raised(e))
      case Items(items) => Query(Some(url), Value(items))
  }

  /** Balance and history of one address query the same network. */
  lemma QueriesShareNetwork(address: string, walletType: string)
    requires NetworkFor(walletType).Some?
    ensures BalanceUrl(address, walletType).Some? && HistoryUrl(address, walletType).Some?
    ensures BalanceUrl(address, walletType).value
      == BaseUrl + "/blockchain-data/" + NetworkFor(walletType).value + "/addresses/" + address + "/balance"
    ensures HistoryUrl(address, walletType).value
      == BaseUrl + "/blockchain-data/" + NetworkFor(walletType).value + "/addresses/" + address + "/transactions"
  {
  }
}
