/** Wallet creation: the record each chain type yields from its key-generation step,
    and the save that follows. Key generation, address derivation and decryption are
    library calls; their results are given as a KeyGeneration value. */
module WalletCreation {
  import opened Wrappers
  import opened WalletStore
  import opened Networks

  /** What the key-generation libraries produced for one create request. */
  datatype KeyGeneration = KeyGeneration(
    ethTokenHex: string,              // 32 random bytes, hex encoded
    ethAddress: string,               // address derived from the Ethereum private key
    mnemonic: string,                 // generated seed phrase
    bitcoinAddress: string,           // first receiving address of the segwit testnet wallet
    dashAddress: string,              // first address of the Dash testnet wallet
    dashKey: Result<string, string>)  // first decrypted private key, or the decryption error text

  /** What a successful create returns to the caller. */
  datatype Created = Created(privateKey: string, address: string, password: string)

  /** The record a create request stores, or the error it returns instead. */
  function NewRecord(name: string, password: string, walletType: string, keys: KeyGeneration): (r: Result<WalletRecord, string>)
    ensures r.Success? <==> walletType in SupportedNetworks && !(walletType == "Dash" && keys.dashKey.Failure?)
    ensures walletType !in SupportedNetworks ==> r == Failure("Unsupported wallet type: " + walletType)
    ensures walletType == "Dash" && keys.dashKey.Failure? ==>
      r == Failure("Failed to decrypt private key: " + keys.dashKey.error)
    ensures r.Success? ==> r.value.name == name && r.value.password == password
    ensures r.Success? ==> NetworkFor(r.value.walletType) == NetworkFor(walletType) && NetworkFor(walletType).Some?
    ensures r.Success? ==> SendRoute(r.value.walletType) == SendRoute(walletType) && SendRoute(walletType).Some?
    ensures walletType == "Ethereum" ==>
      r.Success? && r.value.walletType == "Ethereum Testnet" && r.value.address == keys.ethAddress
      && r.value.privateKey == "0x" + keys.ethTokenHex
    ensures walletType == "Bitcoin" ==>
      r == Success(WalletRecord(name, "Bitcoin", keys.bitcoinAddress, keys.mnemonic, password))
    ensures walletType == "Dash" && keys.dashKey.Success? ==>
      r == Success(WalletRecord(name, "Dash", keys.dashAddress, keys.dashKey.value, password))
  {
    if walletType == "Ethereum" then
      SendRouteCoversNetworks("Ethereum");
      SendRouteCoversNetworks("Ethereum Testnet");
      Success(WalletRecord(name, "Ethereum Testnet", keys.ethAddress, "0x" + keys.ethTokenHex, password))
    else if walletType == "Bitcoin" then
      SendRouteCoversNetworks("Bitcoin");
      Success(WalletRecord(name, walletType, keys.bitcoinAddress, keys.mnemonic, password))
    else if walletType == "Dash" then
      match keys.dashKey
      case Success(key) =>
        SendRouteCoversNetworks("Dash");
        Success(WalletRecord(name, walletType, keys.dashAddress, key, password))
      case Failure(e) => Failure("Failed to decrypt private key: " + e)
    else
      Failure("Unsupported wallet type: " + walletType)
  }

  /** Creates a wallet: on success exactly one record is appended to the store and its
      secret, address and password are returned; on failure the store is untouched. */
  method CreateWallet(store: Store, name: string, password: string, walletType: string, keys: KeyGeneration)
    returns (r: Result<Created, string>)
    modifies store
    ensures r.Failure? <==> NewRecord(name, password, walletType, keys).Failure?
    ensures r.Failure? ==> r.error == NewRecord(name, password, walletType, keys).error
    ensures r.Failure? ==> store.file == old(store.file)
    ensures r.Success? ==>
      var w := NewRecord(name, password, walletType, keys).value;
      && store.file == Some(Loaded(old(store.file)) + [w])
      && r.value == Created(w.privateKey, w.address, password)
  {
    match NewRecord(name, password, walletType, keys)
    case Failure(e) =>
      r := Failure(e);
    case Success(w) =>
      store.SaveWallet(w.name, w.walletType, w.address, w.privateKey, w.password);
      assert store.file.value == Loaded(old(store.file)) + [w];
      r := Success(Created(w.privateKey, w.address, password));
  }
}
