# Wallet manager of send_crypto, modelled in Dafny

send_crypto is a small dashboard that creates Bitcoin, Dash and Ethereum testnet
wallets, keeps them in a local wallets file, queries balances and transaction
history through a blockchain-data HTTP API, and sends simple transfers. This
project models its wallet manager, `manage.py`:

- **Wallet store** (`wallet_store.dfy`, module `WalletStore`). The wallets file is
  the field `file: Option<seq<WalletRecord>>` of class `Store`: `None` while the
  file does not exist. `SaveWallet` appends one record. `GetWallets` lists the
  records. `DeleteWallet` removes every record matching a (name, type, address)
  triple and reports whether the file existed. The filter is the function `Kept`.
- **Chain types** (`networks.dfy`, module `Networks`). This holds the
  supported-networks table and the aliasing of "Ethereum Testnet" to "Ethereum"
  for queries. It also holds the case-insensitive routing of sends (`SendRoute`).
- **Balance and history** (`balance.dfy`, module `Balance`). Each query returns
  the request it made (`None`: no request at all) and the reply. The reply is a
  plain message or a structured value, as in the source. The balance string is
  trimmed by `Trim`, which is `rstrip('0')` followed by `rstrip('.')`.
- **Creation** (`wallet_creation.dfy`, module `WalletCreation`). `NewRecord`
  gives the record each chain type produces, or the error. `CreateWallet` saves
  that record in the store.
- **Sending** (`sending.dfy`, module `Sending`). `SendCrypto` dispatches to
  `SendEthereum`, `SendBitcoin` and `SendDash`. The reply datatype has one
  constructor per shape of mapping the caller gets back, plus `Raised` for an
  exception that escapes.

Library calls, the HTTP API and the Ethereum node are not modelled. Their
outcomes are input values: `KeyGeneration`, `BalanceResponse`,
`HistoryResponse`, `EthereumNode` and the `Result`s in `Chains`. The contracts
give the reply or error text the source produces for each of these outcomes. The
routing contract says which path each chain type goes to.

Deletion removes every record that matches the triple, not only the first one
(manage.py:170).

Trimming is not idempotent in general: "10.00000000" trims to "10", and "10"
trims to "1" (`Balance.TrimNotIdempotent`). The source trims only once, so this
is not a defect. Idempotence is proved for balances that keep a fractional
digit.

## Model

| member | source | states |
|---|---|---|
| `WalletStore.Store.SaveWallet` | manage.py:31-47 | the file exists afterwards and holds the previous records (none if it was absent), unchanged and in order, followed by exactly one new record with the given name, type, address, private key and password |
| `WalletStore.Store.GetWallets` | manage.py:49-53 | an absent file lists as the empty sequence; a present one lists its records unchanged |
| `WalletStore.Store.DeleteWallet` | manage.py:165-175 | returns true iff the file existed, whether or not anything matched; an absent file stays absent; a present file is rewritten to the records not matching the triple |
| `WalletStore.Kept` | manage.py:170 | no survivor matches the triple, every survivor was in the store, every non-matching record survives, and the result is no longer than the store |
| `WalletStore.KeptAppend` | manage.py:170 | the survivors of two concatenated parts are the survivors of each part in order, so relative order is preserved |
| `WalletStore.KeptNoMatch` | manage.py:170 | a store with no matching record is left exactly as it was |
| `WalletStore.KeptIdempotent` | manage.py:170 | deleting the same triple twice is the same as deleting it once |
| `WalletStore.DeleteSingleMatch` | manage.py:165-175 | with exactly one matching record, deletion leaves zero records with the triple and every other record in its original order |
| `WalletStore.SaveTwiceThenList` | manage.py:31-53 | two saves followed by a listing return the earlier records and then the two new ones, in insertion order |
| `Networks.NetworkFor` | manage.py:96-103 | a query is accepted iff the type is Bitcoin, Dash, Ethereum or "Ethereum Testnet"; these go to bitcoin/testnet, dash/testnet and ethereum/sepolia, with both Ethereum labels on ethereum/sepolia |
| `Networks.NormalisedType` | manage.py:96-98 | only "Ethereum Testnet" is changed, into "Ethereum", so a type maps into the supported-networks table iff it is a key of it or "Ethereum Testnet" |
| `Networks.Lower` | manage.py:178 | lower-casing keeps the length, leaves no upper-case letter, keeps every other character, and turns each upper-case letter into its lower-case counterpart |
| `Networks.SendRoute` | manage.py:178-186 | a send is routed to a chain only when the lower-cased type is that chain's name, alone or followed by " testnet", and is refused when it is neither for any chain |
| `Networks.LowerIdempotent` | manage.py:178 | lower-casing a lower-cased type changes nothing |
| `Networks.SendRouteIgnoresCase` | manage.py:177-187 | two types equal after lower-casing are sent on the same chain, and a type routes like its lower-cased form |
| `Networks.SendRouteCoversNetworks` | manage.py:180-185 | every type a balance query accepts is also sendable, on the chain of the network it queries |
| `Networks.SendMoreLenientThanQuery` | manage.py:180-185 | "bitcoin testnet" and "DASH" are routed for sending although a balance query rejects them |
| `Balance.RStrip` | manage.py:125 | the result is a prefix of the input, does not end with the stripped character, and everything cut off is that character |
| `Balance.RStripUnique` | manage.py:125 | those three properties determine the stripped string uniquely |
| `Balance.RStripAppend` | manage.py:125 | stripping a concatenation strips the tail and reaches into the head only when the tail was entirely the stripped character |
| `Balance.Trim` | manage.py:123-125 | the trimmed balance is a prefix of the formatted one |
| `Balance.TrimFixedPoint` | manage.py:123-125 | on digits "." eight digits the integer part is kept intact, trailing zeros of the fraction are removed, and the point is dropped iff no fractional digit remains |
| `Balance.TrimFixesFraction` | manage.py:125 | a trimmed balance that keeps a fractional digit (digits, a point, digits not ending in zero) is unchanged by trimming |
| `Balance.TrimIdempotentWithFraction` | manage.py:125 | trimming twice equals trimming once when a fractional digit survives |
| `Balance.TrimWholeNumber` | manage.py:123-125 | a whole balance, digits followed by ".00000000", trims to exactly its integer digits |
| `Balance.TrimNotIdempotent` | manage.py:125 | "10.00000000" trims to "10", and trimming again gives "1" |
| `Balance.TrimFractionExample` | manage.py:123-125 | "1.50000000" trims to "1.5" |
| `Balance.TrimWholeExamples` | manage.py:123-125 | "2.00000000" trims to "2", and "0.00000000" to "0", not to an empty string |
| `Balance.GetWalletBalance` | manage.py:89-136 | an unsupported type yields "Unsupported wallet type" with no request; otherwise the balance URL for the type's network is requested and the reply is the response's; a structured total comes back iff the body has an amount and a unit and the amount parses, and it is then exactly the trimmed 8-decimal rendering with the response's unit; nothing escapes |
| `Balance.BalanceReply` | manage.py:110-136 | a request failure, another failure, a missing amount or unit and an unparsable amount each give their own message; otherwise the total is the trimmed rendering with the response's unit; nothing escapes |
| `Balance.BalanceExamples` | manage.py:113-129 | amounts rendered "1.50000000" and "2.00000000" in BTC are reported as totals "1.5" and "2" with unit "BTC" |
| `Balance.GetTransactionHistory` | manage.py:138-163 | an unsupported type yields "Unsupported wallet type" with no request; otherwise the transactions URL is requested; the items come back unchanged iff the response carries them; request and parse failures give their two messages; any other malformed body raises out of the query |
| `Balance.QueriesShareNetwork` | manage.py:103-107 | balance and history of an accepted type query the same network segment for the same address |
| `WalletCreation.NewRecord` | manage.py:55-87 | creation succeeds iff the type is a key of the supported-networks table and, for Dash, decryption succeeded; unknown types and decryption failures give their error messages; Ethereum saves label "Ethereum Testnet", the derived address and key "0x" + the random hex; Bitcoin saves its receiving address and the mnemonic; Dash saves its first address and the decrypted key; name and password are kept; every saved label queries the same network and sends on the same chain as the requested type |
| `WalletCreation.CreateWallet` | manage.py:55-87 | on failure the store is untouched and the error is returned; on success exactly one record is appended and its key, address and password are returned |
| `Sending.SendEthereum` | manage.py:189-241 | a missing project id and an unreachable node give their fixed errors; a wallet without an address raises; a malformed destination never reaches signing; on a configured, reachable node a malformed sender or destination address gives "Invalid Ethereum address: …" with nothing signed; once every check passes, a failed nonce/gas/amount step gives the Ethereum failure message, a missing private key gives it with the key name, and otherwise exactly the transaction with the fetched nonce, the checksummed destination, the wei amount, gas 21000, the gas price and chain id 11155111 is signed; a failed broadcast gives the failure message; the reply is submitted iff a receipt arrived, with status "success" iff the receipt status is 1 and "failed" otherwise |
| `Sending.SendBitcoin` | manage.py:243-258 | the reply is the signed transaction's id and raw hex iff the wallet has a name and the library succeeded; otherwise the failure escapes; nothing is ever broadcast |
| `Sending.SendDash` | manage.py:260-299 | the fixed "Private key or password not found" error comes back iff the key or the password is missing or empty; otherwise a broadcast id comes back with status "success", and a failure comes back as the Dash failure message with status "failed" |
| `Sending.SendCrypto` | manage.py:177-187 | a type routed to Ethereum, Bitcoin or Dash gets exactly that path's reply; an unroutable type gives "Unsupported wallet type: " + the type as given; signed-only replies come only from Bitcoin and submitted ones only from Ethereum or Dash |
| `Sending.DashWithoutPassword` | manage.py:262-266 | a Dash wallet without a password, whatever the spelling of "dash", gets the fixed error before any transaction is built |
| `Sending.EthereumInvalidDestination` | manage.py:203-208 | a send routed to Ethereum (any spelling) with a malformed destination is never signed or submitted; when the node is configured and reachable and the wallet's own address is present and well formed, it is reported as an invalid address |
| `Sending.SavedLabelsRoute` | manage.py:177-187 | the labels saved at creation ("Ethereum Testnet", "Bitcoin", "Dash") route to their own chains |
| `Sending.CreatedWalletSends` | manage.py:56-87 | a created wallet, passed as the object it is saved as and with its saved type, takes its own path: Ethereum through the Ethereum path, Bitcoin signed whenever its library succeeds, and Dash with a key and a password past the missing-secret guard |

## Left out

- File I/O and JSON: the file is an in-memory optional sequence. Parse errors of a corrupt file, and records with missing or non-string fields, are not modelled.
- Concurrent access to the wallets file is not modelled. The source has no locking, so two writers can lose updates.
- Key generation, address derivation, AES decryption, signing and broadcasting are foreign library calls. Their results are inputs.
- WalletCreation.NewRecord: exceptions raised by the Ethereum or Bitcoin libraries, or while deriving the Dash address, escape create in the source. The model assumes those calls return.
- HTTP requests, the API key header and the blocking wait for an Ethereum receipt are network I/O. Responses are inputs.
- Float parsing and formatting to 8 decimals are not modelled: the rendering is an input (`Amount.fixed8`). The same goes for the conversion of Dash amounts to duffs and for the wei conversion (`Prepared.valueWei`).
- Configuration loading is not modelled. The provider project id is an input (`EthereumNode.projectId`).
- Networks.SendRoute: lower-casing covers ASCII letters only. Python's `str.lower` also folds other Unicode letters.
- Sending.SendEthereum: one error text stands for the checksum failure of either address, and the KeyError text is written schematically.
- Balance.TrimIdempotentWithFraction: idempotence is proved only when a fractional digit survives, because it is false in general (`Balance.TrimNotIdempotent`).
- app.py and send_crypto.py are Streamlit pages (forms, routing, rendering) and are not part of this model.
