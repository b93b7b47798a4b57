/** Chain-type handling: the table of supported networks used for balance and history
    queries, and the case-insensitive routing used for sends. */
module Networks {
  import opened Wrappers

  /** Chain label to the network segment of the balance/history endpoint. */
  const SupportedNetworks: map<string, string> :=
    map["Bitcoin" := "bitcoin/testnet", "Dash" := "dash/testnet", "Ethereum" := "ethereum/sepolia"]

  /** "Ethereum Testnet", the label saved for Ethereum wallets, is queried as "Ethereum". */
  function NormalisedType(walletType: string): (t: string)
    ensures t in SupportedNetworks <==> walletType in SupportedNetworks || walletType == "Ethereum Testnet"
    ensures t != walletType ==> walletType == "Ethereum Testnet" && t == "Ethereum"
  {
    if walletType == "Ethereum Testnet" then "Ethereum" else walletType
  }

  /** The network segment a balance or history query uses, or None when the type is
      rejected before any request. */
  function NetworkFor(walletType: string): (n: Option<string>)
    ensures n.Some? <==> walletType in {"Bitcoin", "Dash", "Ethereum", "Ethereum Testnet"}
    ensures n == Some("bitcoin/testnet") <==> walletType == "Bitcoin"
    ensures n == Some("dash/testnet") <==> walletType == "Dash"
    ensures n == Some("ethereum/sepolia") <==> walletType == "Ethereum" || walletType == "Ethereum Testnet"
  {
    var t := NormalisedType(walletType);
    if t in SupportedNetworks then Some(SupportedNetworks[t]) else None
  }

  /** The three chains a send can go to. */
  datatype Chain = Bitcoin | Dash | Ethereum

  /** Lower-casing of one character (ASCII letters only). */
  function LowerChar(c: char): char
  {
    if 'A' <= c <= 'Z' then (c as int + 32) as char else c
  }

  /** Lower-casing of a string, character by character: no upper-case letter is left,
      every other character is kept, and an upper-case letter becomes its lower-case
      counterpart. */
  function Lower(s: string): (r: string)
    ensures |r| == |s|
    ensures forall i :: 0 <= i < |r| ==> !('A' <= r[i] <= 'Z')
    ensures forall i :: 0 <= i < |s| && !('A' <= s[i] <= 'Z') ==> r[i] == s[i]
    ensures forall i :: 0 <= i < |s| && 'A' <= s[i] <= 'Z' ==> r[i] as int == s[i] as int + 32
  {
    seq(|s|, i requires 0 <= i < |s| => LowerChar(s[i]))
  }

  /** The lower-case name of a chain. */
  function ChainName(c: Chain): string
  {
    match c
    case Bitcoin => "bitcoin"
    case Dash => "dash"
    case Ethereum => "ethereum"
  }

  /** The chain a send for `walletType` goes to, decided on the lower-cased type with
      or without a " testnet" suffix; None for any other type. */
  function SendRoute(walletType: string): (r: Option<Chain>)
    ensures r.Some? ==>
      Lower(walletType) == ChainName(r.value) || Lower(walletType) == ChainName(r.value) + " testnet"
    ensures r.None? ==>
      forall c: Chain :: Lower(walletType) != ChainName(c) && Lower(walletType) != ChainName(c) + " testnet"
  {
    var t := Lower(walletType);
    if t == "ethereum" || t == "ethereum testnet" then Some(Ethereum)
    else if t == "bitcoin" || t == "bitcoin testnet" then Some(Bitcoin)
    else if t == "dash" || t == "dash testnet" then Some(Dash)
    else None
  }

  /** Lower-casing is idempotent. */
  lemma LowerIdempotent(s: string)
    ensures Lower(Lower(s)) == Lower(s)
  {
    assert forall i :: 0 <= i < |s| ==> LowerChar(LowerChar(s[i])) == LowerChar(s[i]);
  }

  /** Routing ignores case: types that agree once lower-cased go to the same chain,
      and a type routes exactly as its lower-cased form does. */
  lemma SendRouteIgnoresCase(a: string, b: string)
    requires Lower(a) == Lower(b)
    ensures SendRoute(a) == SendRoute(b)
    ensures SendRoute(Lower(a)) == SendRoute(a)
  {
    LowerIdempotent(a);
  }

  /** The chain whose network segment is `network`. */
  function ChainOf(network: string): Option<Chain>
  {
    if network == "bitcoin/testnet" then Some(Bitcoin)
    else if network == "dash/testnet" then Some(Dash)
    else if network == "ethereum/sepolia" then Some(Ethereum)
    else None
  }

  /** Every type a balance or history query accepts can also be sent, to the chain
      whose network it queries. */
  lemma SendRouteCoversNetworks(walletType: string)
    requires NetworkFor(walletType).Some?
    ensures SendRoute(walletType).Some?
    ensures SendRoute(walletType) == ChainOf(NetworkFor(walletType).value)
  {
    if walletType == "Bitcoin" {
      assert Lower("Bitcoin") == "bitcoin";
    } else if walletType == "Dash" {
      assert Lower("Dash") == "dash";
    } else if walletType == "Ethereum" {
      assert Lower("Ethereum") == "ethereum";
    } else {
      assert Lower("Ethereum Testnet") == "ethereum testnet";
    }
  }

  /** Sends are more lenient than queries: a lower-case testnet label routes to its
      chain although a balance query rejects it. */
  lemma SendMoreLenientThanQuery()
    ensures SendRoute("bitcoin testnet") == Some(Bitcoin) && NetworkFor("bitcoin testnet").None?
    ensures SendRoute("DASH") == Some(Dash) && NetworkFor("DASH").None?
  {
    assert Lower("bitcoin testnet") == "bitcoin testnet";
    assert Lower("DASH") == "dash";
  }
}
