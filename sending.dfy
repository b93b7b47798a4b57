/** Sending: dispatch on the chain type and the three per-chain send paths. Signing,
    broadcasting and every network round trip are library calls; their outcomes are
    given as inputs, and each path states what it returns for them. */
module Sending {
  import opened Wrappers
  import opened WalletStore
  import opened Networks
  import opened WalletCreation

  /** A wallet as the sender receives it: the JSON object read from the store. */
  type WalletDict = map<string, string>

  /** The object a stored record is saved as. */
  function AsDict(w: WalletRecord): WalletDict
  {
    map["name" := w.name, "type" := w.walletType, "address" := w.address,
        "private_key" := w.privateKey, "password" := w.password]
  }

  function Get(wallet: WalletDict, key: string): Option<string>
  {
    if key in wallet then Some(wallet[key]) else None
  }

  /** A value that counts as false: missing or empty. */
  predicate Blank(v: Option<string>)
  {
    v.None? || v.value == ""
  }

  /** The reply of a send, one constructor per shape of mapping the caller receives. */
  datatype SendReply =
    | Error(error: string)                 // {"error": e}
    | Failed(error: string)                // {"error": e, "status": "failed"}
    | Submitted(txid: string, status: string)  // {"txid": id, "status": s}
    | Signed(txid: string, rawTx: string)  // {"txid": id, "raw_tx": hex}, not broadcast
    | Raised(reason: string)               // an exception escapes to the caller

  // ---------------------------------------------------------------------------
  // Ethereum

  const StandardGas: nat := 21000
  const SepoliaChainId: nat := 11155111
  const EthereumFailure: string := "Failed to create or broadcast Ethereum transaction: "

  /** The value transfer handed to signing and broadcasting. */
  datatype EthTransaction = EthTransaction(nonce: nat, to: string, value: nat, gas: nat, gasPrice: nat, chainId: nat)

  /** The sender's next nonce, the amount in wei and the current gas price. */
  datatype Prepared = Prepared(nonce: nat, valueWei: nat, gasPrice: nat)

  datatype Receipt = Receipt(transactionHash: string, status: int)

  /** What the Ethereum node and its client library do for one send. */
  datatype EthereumNode = EthereumNode(
    projectId: Option<string>,         // provider project identifier from the configuration
    connected: bool,                   // the connectivity probe
    checksummed: map<string, string>,  // well-formed addresses and their checksummed form
    checksumError: string,             // the error text for a malformed address
    prepared: Result<Prepared, string>,  // nonce, amount conversion and gas price, or the error text
    receipt: Result<Receipt, string>)  // signing, broadcasting and the awaited receipt, or the error text

  /** The project id is set, the node answers, the wallet has an address, and both
      addresses are well formed: every check before the transaction is built passed. */
  predicate ChecksPass(wallet: WalletDict, toAddress: string, node: EthereumNode)
  {
    !Blank(node.projectId) && node.connected && "address" in wallet
    && wallet["address"] in node.checksummed && toAddress in node.checksummed
  }

  /** A send's reply and the transaction it handed to signing, if any. */
  datatype EthAttempt = EthAttempt(reply: SendReply, signed: Option<EthTransaction>)

  function SendEthereum(wallet: WalletDict, toAddress: string, node: EthereumNode): (a: EthAttempt)
    ensures Blank(node.projectId) ==>
      a == EthAttempt(Error("INFURA_PROJECT_ID not found in environment variables"), None)
    ensures !Blank(node.projectId) && !node.connected ==>
      a == EthAttempt(Error("Cannot connect to the Ethereum network"), None)
    ensures toAddress !in node.checksummed ==> a.signed.None? && !a.reply.Submitted?
    ensures !Blank(node.projectId) && node.connected && "address" in wallet
            && !(wallet["address"] in node.checksummed && toAddress in node.checksummed) ==>
      a == EthAttempt(Error("Invalid Ethereum address: " + node.checksumError), None)
    ensures a.signed.Some? ==>
      && toAddress in node.checksummed && node.prepared.Success? && "private_key" in wallet
      && a.signed.value.to == node.checksummed[toAddress]
      && a.signed.value.gas == StandardGas && a.signed.value.chainId == SepoliaChainId
      && a.signed.value.nonce == node.prepared.value.nonce
      && a.signed.value.value == node.prepared.value.valueWei
      && a.signed.value.gasPrice == node.prepared.value.gasPrice
    ensures a.reply.Submitted? <==> a.signed.Some? && node.receipt.Success?
    ensures a.reply.Submitted? ==>
      && a.reply.txid == node.receipt.value.transactionHash
      && (a.reply.status == "success" <==> node.receipt.value.status == 1)
      && (a.reply.status == "failed" <==> node.receipt.value.status != 1)
    ensures !Blank(node.projectId) && node.connected && "address" !in wallet ==> a.reply.Raised? && a.signed.None?
    ensures ChecksPass(wallet, toAddress, node) && node.prepared.Failure? ==>
      a == EthAttempt(Failed(EthereumFailure + node.prepared.error), None)
    ensures ChecksPass(wallet, toAddress, node) && node.prepared.Success? && "private_key" !in wallet ==>
      a == EthAttempt(Failed(EthereumFailure + "'private_key'"), None)
    ensures ChecksPass(wallet, toAddress, node) && node.prepared.Success? && "private_key" in wallet ==>
      a.signed == Some(EthTransaction(node.prepared.value.nonce, node.checksummed[toAddress], node.prepared.value.valueWei,
                                      StandardGas, node.prepared.value.gasPrice, SepoliaChainId))
    ensures a.signed.Some? && node.receipt.Failure? ==> a.reply == Failed(EthereumFailure + node.receipt.error)
    ensures a.reply.Error? || a.reply.Failed? || a.reply.Submitted? || a.reply.Raised?
  {
    if Blank(node.projectId) then
      EthAttempt(Error("INFURA_PROJECT_ID not found in environment variables"), None)
    else if !node.connected then
      EthAttempt(Error("Cannot connect to the Ethereum network"), None)
    else if "address" !in wallet then
      EthAttempt(Raised("KeyError: 'address'"), None)
    else if wallet["address"] !in node.checksummed || toAddress !in node.checksummed then
      EthAttempt(Error("Invalid Ethereum address: " + node.checksumError), None)
    else
      match node.prepared
      case Failure(e) => EthAttempt(Failed(EthereumFailure + e), None)
      case Success(p) =>
        var tx := EthTransaction(p.nonce, node.checksummed[toAddress], p.valueWei, StandardGas, p.gasPrice, SepoliaChainId);
        if "private_key" !in wallet then
          EthAttempt(Failed(EthereumFailure + "'private_key'"), None)
        else
          match node.receipt
          case Failure(e) => EthAttempt(Failed(EthereumFailure + e), Some(tx))
          case Success(rc) =>
            EthAttempt(Submitted(rc.transactionHash, if rc.status == 1 then "success" else "failed"), Some(tx))
  }

  // ---------------------------------------------------------------------------
  // Bitcoin

  /** A signed transaction's id and raw serialisation. */
  datatype SignedTx = SignedTx(txid: string, rawHex: string)

  /** Loads the named wallet, builds and signs the transfer and returns it without
      broadcasting; nothing in this path catches a failure. `built` is what the wallet
      library produced: the signed transaction or the failure it raised. */
  function SendBitcoin(wallet: WalletDict, toAddress: string, built: Result<SignedTx, string>): (r: SendReply)
    ensures r.Signed? || r.Raised?
    ensures r.Signed? <==> "name" in wallet && built.Success?
    ensures r.Signed? ==> r.txid == built.value.txid && r.rawTx == built.value.rawHex
  {
    if "name" !in wallet then Raised("KeyError: 'name'")
    else match built
      case Failure(e) => Raised(e)
      case Success(tx) => Signed(tx.txid, tx.rawHex)
  }

  // ---------------------------------------------------------------------------
  // Dash

  const DashMissingSecret: string := "Private key or password not found for this wallet"
  const DashFailure: string := "Failed to create or broadcast Dash transaction: "

  /** Requires a secret and a password on the wallet before anything is built; then the
      transaction is built, signed and broadcast. `broadcast` is the id the broadcast
      returned, or the error text raised on the way. */
  function SendDash(wallet: WalletDict, toAddress: string, broadcast: Result<string, string>): (r: SendReply)
    ensures r == Error(DashMissingSecret) <==> Blank(Get(wallet, "private_key")) || Blank(Get(wallet, "password"))
    ensures r.Submitted? <==>
      !Blank(Get(wallet, "private_key")) && !Blank(Get(wallet, "password")) && broadcast.Success?
    ensures r.Submitted? ==> r == Submitted(broadcast.value, "success")
    ensures r.Failed? ==> broadcast.Failure? && r.error == DashFailure + broadcast.error
    ensures !Blank(Get(wallet, "private_key")) && !Blank(Get(wallet, "password")) && broadcast.Failure? ==>
      r == Failed(DashFailure + broadcast.error)
    ensures r.Error? || r.Submitted? || r.Failed?
  {
    var privateKey := Get(wallet, "private_key");
    var password := Get(wallet, "password");
    if Blank(privateKey) || Blank(password) then Error(DashMissingSecret)
    else match broadcast
      case Success(txid) => Submitted(txid, "success")
      case Failure(e) => Failed(DashFailure + e)
  }

  // ---------------------------------------------------------------------------
  // Dispatch

  /** The outcomes of the three chains' libraries for one send. */
  datatype Chains = Chains(ethereum: EthereumNode, bitcoin: Result<SignedTx, string>, dash: Result<string, string>)

  /** Dispatches on the lower-cased chain type; any other type is refused with a
      message naming the type as given. */
  function SendCrypto(wallet: WalletDict, toAddress: string, walletType: string, chains: Chains): (r: SendReply)
    ensures SendRoute(walletType).None? ==> r == Error("Unsupported wallet type: " + walletType)
    ensures r.Signed? ==> SendRoute(walletType) == Some(Bitcoin)
    ensures r.Submitted? ==> SendRoute(walletType) == Some(Ethereum) || SendRoute(walletType) == Some(Dash)
    ensures SendRoute(walletType) == Some(Ethereum) ==> r == SendEthereum(wallet, toAddress, chains.ethereum).reply
    ensures SendRoute(walletType) == Some(Bitcoin) ==> r == SendBitcoin(wallet, toAddress, chains.bitcoin)
    ensures SendRoute(walletType) == Some(Dash) ==> r == SendDash(wallet, toAddress, chains.dash)
    ensures SendRoute(walletType) == Some(Bitcoin) ==> r.Signed? || r.Raised?
  {
    match SendRoute(walletType)
    case Some(Ethereum) => SendEthereum(wallet, toAddress, chains.ethereum).reply
    case Some(Bitcoin) => SendBitcoin(wallet, toAddress, chains.bitcoin)
    case Some(Dash) => SendDash(wallet, toAddress, chains.dash)
    case None => Error("Unsupported wallet type: " + walletType)
  }

  /** A Dash wallet without a password is refused with the fixed message, whatever the
      spelling of its type, before any transaction is built. */
  lemma DashWithoutPassword(wallet: WalletDict, toAddress: string, walletType: string, chains: Chains)
    requires "password" !in wallet
    requires Lower(walletType) == "dash"
    ensures SendCrypto(wallet, toAddress, walletType, chains) == Error(DashMissingSecret)
  {
  }

  /** An Ethereum send to a malformed destination never hands a transaction to signing;
      on a configured, reachable node, for a wallet whose own address is present and
      well formed, it is refused with an "Invalid Ethereum address" error. */
  lemma EthereumInvalidDestination(wallet: WalletDict, toAddress: string, walletType: string, chains: Chains)
    requires SendRoute(walletType) == Some(Ethereum)
    requires toAddress !in chains.ethereum.checksummed
    ensures SendEthereum(wallet, toAddress, chains.ethereum).signed.None?
    ensures !SendCrypto(wallet, toAddress, walletType, chains).Submitted?
    ensures !Blank(chains.ethereum.projectId) && chains.ethereum.connected
            && "address" in wallet && wallet["address"] in chains.ethereum.checksummed ==>
      SendCrypto(wallet, toAddress, walletType, chains)
        == Error("Invalid Ethereum address: " + chains.ethereum.checksumError)
  {
  }

  /** A wallet created by this system is sent on the chain it was created for: the
      saved label of an Ethereum wallet routes to Ethereum. */
  lemma SavedLabelsRoute()
    ensures SendRoute("Ethereum Testnet") == Some(Ethereum)
    ensures SendRoute("Bitcoin") == Some(Bitcoin)
    ensures SendRoute("Dash") == Some(Dash)
  {
    SendRouteCoversNetworks("Ethereum Testnet");
    SendRouteCoversNetworks("Bitcoin");
    SendRouteCoversNetworks("Dash");
  }

  /** A wallet created by this system, passed back as the object it is saved as and
      with its saved type, is sent on the chain it was created for: an Ethereum wallet
      goes through the Ethereum path, a Bitcoin wallet is signed whenever its library
      succeeds, and a Dash wallet with a key and a password passes the guard. */
  lemma CreatedWalletSends(name: string, password: string, walletType: string, keys: KeyGeneration,
                           toAddress: string, chains: Chains)
    requires NewRecord(name, password, walletType, keys).Success?
    ensures var w := NewRecord(name, password, walletType, keys).value;
      walletType == "Ethereum" ==>
        SendCrypto(AsDict(w), toAddress, w.walletType, chains) == SendEthereum(AsDict(w), toAddress, chains.ethereum).reply
    ensures var w := NewRecord(name, password, walletType, keys).value;
      walletType == "Bitcoin" ==>
        (SendCrypto(AsDict(w), toAddress, w.walletType, chains).Signed? <==> chains.bitcoin.Success?)
    ensures var w := NewRecord(name, password, walletType, keys).value;
      walletType == "Dash" && password != "" && w.privateKey != "" ==>
        SendCrypto(AsDict(w), toAddress, w.walletType, chains) != Error(DashMissingSecret)
  {
    var w := NewRecord(name, password, walletType, keys).value;
    assert "name" in AsDict(w) && "address" in AsDict(w);
    assert AsDict(w)["private_key"] == w.privateKey && AsDict(w)["password"] == w.password;
  }
}
