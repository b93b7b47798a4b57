/** The wallet store: the wallets file, as an ordered sequence of records that may
    not exist yet. Every mutation reads the whole sequence and writes it back. */
module WalletStore {
  import opened Wrappers

  /** One entry of the wallets file. `walletType` is the saved chain label
      ("Bitcoin", "Dash" or "Ethereum Testnet" for wallets this system creates). */
  datatype WalletRecord = WalletRecord(
    name: string,
    walletType: string,
    address: string,
    privateKey: string,
    password: string)

  /** `w` carries exactly the (name, type, address) triple that a deletion names. */
  predicate Matches(w: WalletRecord, name: string, walletType: string, address: string)
  {
    w.name == name && w.walletType == walletType && w.address == address
  }

  /** The records a reader of the file sees: none while the file is absent. */
  function Loaded(file: Option<seq<WalletRecord>>): seq<WalletRecord>
  {
    if file.Some? then file.value else []
  }

  /** The records that survive deleting (name, walletType, address), in their order. */
  function Kept(ws: seq<WalletRecord>, name: string, walletType: string, address: string): (r: seq<WalletRecord>)
    ensures |r| <= |ws|
    ensures forall w :: w in r ==> w in ws && !Matches(w, name, walletType, address)
    ensures forall w :: w in ws && !Matches(w, name, walletType, address) ==> w in r
  {
    if ws == [] then []
    else if Matches(ws[0], name, walletType, address) then Kept(ws[1..], name, walletType, address)
    else [ws[0]] + Kept(ws[1..], name, walletType, address)
  }

  /** Filtering distributes over concatenation: the survivors of a store are the
      survivors of each part, in the parts' order. */
  lemma {:induction false} KeptAppend(a: seq<WalletRecord>, b: seq<WalletRecord>, name: string, walletType: string, address: string)
    ensures Kept(a + b, name, walletType, address) == Kept(a, name, walletType, address) + Kept(b, name, walletType, address)
  {
    if a == [] {
      assert a + b == b;
    } else {
      assert (a + b)[0] == a[0];
      assert (a + b)[1..] == a[1..] + b;
      KeptAppend(a[1..], b, name, walletType, address);
    }
  }

  /** A store with no record matching the triple is left exactly as it was. */
  lemma {:induction false} KeptNoMatch(ws: seq<WalletRecord>, name: string, walletType: string, address: string)
    requires forall w :: w in ws ==> !Matches(w, name, walletType, address)
    ensures Kept(ws, name, walletType, address) == ws
  {
    if ws != [] {
      assert ws[0] in ws;
      assert forall w :: w in ws[1..] ==> w in ws;
      KeptNoMatch(ws[1..], name, walletType, address);
      assert [ws[0]] + ws[1..] == ws;
    }
  }

  /** Deleting the same triple a second time changes nothing. */
  lemma KeptIdempotent(ws: seq<WalletRecord>, name: string, walletType: string, address: string)
    ensures Kept(Kept(ws, name, walletType, address), name, walletType, address) == Kept(ws, name, walletType, address)
  {
    KeptNoMatch(Kept(ws, name, walletType, address), name, walletType, address);
  }

  /** A store holding exactly one record with the triple loses that record and keeps
      every other record, in its original order. */
  lemma DeleteSingleMatch(before: seq<WalletRecord>, m: WalletRecord, after: seq<WalletRecord>,
                          name: string, walletType: string, address: string)
    requires Matches(m, name, walletType, address)
    requires forall w :: w in before ==> !Matches(w, name, walletType, address)
    requires forall w :: w in after ==> !Matches(w, name, walletType, address)
    ensures Kept(before + [m] + after, name, walletType, address) == before + after
  {
    var km := Kept([m], name, walletType, address);
    assert [m][1..] == [];
    assert km == [];
    KeptNoMatch(before, name, walletType, address);
    KeptNoMatch(after, name, walletType, address);
    KeptAppend(before, [m], name, walletType, address);
    assert Kept(before + [m], name, walletType, address) == before;
    KeptAppend(before + [m], after, name, walletType, address);
  }

  /** The wallets file. */
  class Store {
    /** The file's contents; None while the file does not exist. */
    var file: Option<seq<WalletRecord>>

    constructor (initial: Option<seq<WalletRecord>>)
      ensures file == initial
    {
      file := initial;
    }

    /** Reads the file (an absent file reads as empty), appends one record and writes
        the whole sequence back, creating the file if need be. */
    method SaveWallet(name: string, walletType: string, address: string, privateKey: string, password: string)
      modifies this
      ensures file.Some?
      ensures |file.value| == |Loaded(old(file))| + 1
      ensures file.value[..|file.value| - 1] == Loaded(old(file))
      ensures file.value[|file.value| - 1] == WalletRecord(name, walletType, address, privateKey, password)
    {
      var wallets := if file.Some? then file.value else [];
      wallets := wallets + [WalletRecord(name, walletType, address, privateKey, password)];
      file := Some(wallets);
    }

    /** The stored records, or none when the file is absent. */
    method GetWallets() returns (ws: seq<WalletRecord>)
      ensures file.None? ==> ws == []
      ensures file.Some? ==> ws == file.value
    {
      if file.Some? {
        ws := file.value;
      } else {
        ws := [];
      }
    }

    /** Rewrites the file without any record carrying (name, walletType, address).
        Reports whether the file existed, not whether anything was removed. */
    method DeleteWallet(name: string, walletType: string, address: string) returns (existed: bool)
      modifies this
      ensures existed <==> old(file).Some?
      ensures !existed ==> file == None
      ensures existed ==> file == Some(Kept(old(file).value, name, walletType, address))
    {
      if file.Some? {
        var wallets := Kept(file.value, name, walletType, address);
        file := Some(wallets);
        existed := true;
      } else {
        existed := false;
      }
    }
  }

  /** Two saves followed by a listing return the earlier records and then the two new
      ones in the order they were saved; an absent file starts out empty. */
  method SaveTwiceThenList(initial: Option<seq<WalletRecord>>, a: WalletRecord, b: WalletRecord)
    returns (listed: seq<WalletRecord>)
    ensures listed == Loaded(initial) + [a, b]
  {
    var store := new Store(initial);
    store.SaveWallet(a.name, a.walletType, a.address, a.privateKey, a.password);
    store.SaveWallet(b.name, b.walletType, b.address, b.privateKey, b.password);
    listed := store.GetWallets();
  }
}
