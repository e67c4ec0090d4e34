/**
 * The wallet page's mnemonic reveal: five wallet keys, at most one phrase shown at a time, and
 * a cache of starter mnemonics filled from the main process the first time each is revealed.
 */
module Wallet {
  import opened Wrappers

  /** The five rows of the wallet table. */
  datatype WalletKey = Master | Layer1 | Layer2Thunder | Layer2Bitnames | Layer2Zside

  const AllKeys: set<WalletKey> := {Master, Layer1, Layer2Thunder, Layer2Bitnames, Layer2Zside}

  /** The key as the component's state objects spell it. */
  function KeyName(key: WalletKey): string {
    match key
    case Master => "master"
    case Layer1 => "layer1"
    case Layer2Thunder => "layer2_thunder"
    case Layer2Bitnames => "layer2_bitnames"
    case Layer2Zside => "layer2_zside"
  }

  /** The starter type asked of `getWalletStarter` for a key: the key's name without its `layer2_` prefix. */
  function StarterType(key: WalletKey): (t: string)
    ensures t == KeyName(key) || KeyName(key) == "layer2_" + t
    ensures t in {"master", "layer1", "thunder", "bitnames", "zside"}
  {
    match key
    case Master => "master"
    case Layer1 => "layer1"
    case Layer2Thunder => "thunder"
    case Layer2Bitnames => "bitnames"
    case Layer2Zside => "zside"
  }

  /** Distinct rows fetch distinct starters. */
  lemma StarterTypeInjective(k1: WalletKey, k2: WalletKey)
    ensures StarterType(k1) == StarterType(k2) ==> k1 == k2
  {
  }

  /** The masked text held until a starter has been fetched. */
  const Placeholder: string := "••••••••••••"

  /** `revealedMnemonics`. */
  type Flags = map<WalletKey, bool>

  /** `mnemonics`. */
  type Phrases = map<WalletKey, string>

  /** Every key hidden. */
  function AllHidden(): (r: Flags)
    ensures r.Keys == AllKeys && forall k :: k in r ==> !r[k]
  {
    map k | k in AllKeys :: false
  }

  /** Only `key` revealed. */
  function OnlyRevealed(key: WalletKey): (r: Flags)
    ensures r.Keys == AllKeys && forall k :: k in r ==> (r[k] <==> k == key)
  {
    map k | k in AllKeys :: k == key
  }

  /** No two keys are revealed together. */
  predicate AtMostOneRevealed(r: Flags) {
    forall k1, k2 :: k1 in r && k2 in r && r[k1] && r[k2] ==> k1 == k2
  }

  /** The reveal flags after toggling `key`: hide everything if it was shown, else show only it. */
  function NextRevealed(revealed: Flags, key: WalletKey): Flags
    requires key in revealed
  {
    if revealed[key] then AllHidden() else OnlyRevealed(key)
  }

  /** A toggle asks for the starter only when it reveals a key whose phrase is still the placeholder. */
  predicate NeedsFetch(revealed: Flags, mnemonics: Phrases, key: WalletKey)
    requires key in revealed && key in mnemonics
  {
    !revealed[key] && mnemonics[key] == Placeholder
  }

  /** The answer of `getWalletStarter`: a `{success, data}` object, or a thrown error. */
  datatype StarterResult = Starter(success: bool, data: string) | Threw

  /** The cache after toggling `key` with `result` as the answer if a fetch is made. */
  function NextMnemonics(revealed: Flags, mnemonics: Phrases, key: WalletKey, result: StarterResult): Phrases
    requires key in revealed && key in mnemonics
  {
    if NeedsFetch(revealed, mnemonics, key) && result.Starter? && result.success then
      mnemonics[key := result.data]
    else
      mnemonics
  }

  /** After any toggle at most one key is revealed, whatever the flags were before. */
  lemma ToggleKeepsAtMostOne(revealed: Flags, key: WalletKey)
    requires key in revealed
    ensures AtMostOneRevealed(NextRevealed(revealed, key))
  {
  }

  /** Toggling a revealed key hides every key. */
  lemma ToggleRevealedHidesAll(revealed: Flags, key: WalletKey)
    requires key in revealed && revealed[key]
    ensures forall k :: k in AllKeys ==> k in NextRevealed(revealed, key) && !NextRevealed(revealed, key)[k]
  {
  }

  /** Toggling a hidden key leaves exactly that key revealed. */
  lemma ToggleHiddenRevealsOnlyIt(revealed: Flags, key: WalletKey)
    requires key in revealed && !revealed[key]
    ensures forall k :: k in AllKeys ==> k in NextRevealed(revealed, key) && (NextRevealed(revealed, key)[k] <==> k == key)
  {
  }

  /** Toggling the same key twice ends with that key shown alone if it was shown, else with nothing shown. */
  lemma ToggleTwice(revealed: Flags, key: WalletKey)
    requires key in revealed
    ensures key in NextRevealed(revealed, key)
    ensures NextRevealed(NextRevealed(revealed, key), key) == if revealed[key] then OnlyRevealed(key) else AllHidden()
  {
  }

  /** A cached real phrase is never fetched again and never overwritten, for any key. */
  lemma RealPhraseKept(revealed: Flags, mnemonics: Phrases, key: WalletKey, result: StarterResult)
    requires key in revealed && key in mnemonics
    ensures mnemonics[key] != Placeholder ==> !NeedsFetch(revealed, mnemonics, key)
    ensures forall k :: k in mnemonics && mnemonics[k] != Placeholder ==>
              k in NextMnemonics(revealed, mnemonics, key, result)
              && NextMnemonics(revealed, mnemonics, key, result)[k] == mnemonics[k]
  {
  }

  /** The cache changes only at the toggled key, only on a successful fetch, and only to the fetched data. */
  lemma CacheChangesOnlyOnSuccess(revealed: Flags, mnemonics: Phrases, key: WalletKey, result: StarterResult)
    requires key in revealed && key in mnemonics
    ensures var next := NextMnemonics(revealed, mnemonics, key, result);
      next.Keys == mnemonics.Keys
      && (forall k :: k in mnemonics && k != key ==> next[k] == mnemonics[k])
      && (next != mnemonics ==> NeedsFetch(revealed, mnemonics, key) && result == Starter(true, next[key]))
      && (!(result.Starter? && result.success) ==> next == mnemonics)
  {
  }

  /** The wallet page's reveal state. */
  class WalletModal {
    var revealed: Flags
    var mnemonics: Phrases

    /** Both maps cover the five keys, and no two phrases are shown together. */
    ghost predicate Valid()
      reads this
    {
      revealed.Keys == AllKeys && mnemonics.Keys == AllKeys && AtMostOneRevealed(revealed)
    }

    /** The state on mount: every key hidden, every phrase the placeholder. */
    constructor ()
      ensures Valid()
      ensures revealed == AllHidden()
      ensures forall k :: k in AllKeys ==> mnemonics[k] == Placeholder
    {
      revealed := AllHidden();
      mnemonics := map k | k in AllKeys :: Placeholder;
    }

    /** `toggleMnemonic(key)`; `result` is what `getWalletStarter` answers if it is asked, and
      * `requested` the starter type it is asked for. */
    method ToggleMnemonic(key: WalletKey, result: StarterResult) returns (requested: Option<string>)
      requires Valid()
      modifies this
      ensures Valid()
      ensures revealed == NextRevealed(old(revealed), key)
      ensures mnemonics == NextMnemonics(old(revealed), old(mnemonics), key, result)
      ensures requested == if NeedsFetch(old(revealed), old(mnemonics), key) then Some(StarterType(key)) else None
    {
      ToggleKeepsAtMostOne(revealed, key);
      requested := None;
      if revealed[key] {
        revealed := AllHidden();
        return;
      }
      if !revealed[key] && mnemonics[key] == Placeholder {
        assert NeedsFetch(old(revealed), old(mnemonics), key);
        var starterType := StarterType(key);
        requested := Some(starterType);
        match result
        case Starter(success, data) =>
          if success {
            mnemonics := mnemonics[key := data];
          }
        case Threw =>
      }
      assert mnemonics == NextMnemonics(old(revealed), old(mnemonics), key, result);
      revealed := OnlyRevealed(key);
    }
  }
}
