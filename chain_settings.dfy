/**
 * The chain settings dialog: the chain it was opened for stays fixed, the chain on view may be
 * switched (for BitWindow only) to the Bitcoin Core or Enforcer sub view and back, and a reset
 * may be confirmed for the chain on view.
 */
module ChainSettings {
  import opened Wrappers
  import opened Chains
  import ChainCard

  /** The two chains BitWindow's settings can switch to. */
  datatype SubView = BitcoinCore | Enforcer {
    /** The registry id looked up for the sub view. */
    function Id(): string {
      match this
      case BitcoinCore => "bitcoin"
      case Enforcer => "enforcer"
    }

    /** The repository URL the sub view always shows. */
    function RepoUrl(): string {
      match this
      case BitcoinCore => "https://github.com/bitcoin/bitcoin"
      case Enforcer => "https://github.com/LayerTwo-Labs/bip300301_enforcer"
    }

    /** The switch's label while the sub view is not on view. */
    function Caption(): string {
      match this
      case BitcoinCore => "Bitcoin Core"
      case Enforcer => "Enforcer"
    }
  }

  /** The directories `getFullDataDir`, `getWalletDir` and `getBinaryDir` answer. */
  datatype Dirs = Dirs(dataDir: string, walletDir: string, binaryDir: string)

  /** The chain a sub view shows: the registry entry with the fetched directories, status forced
    * to running and the fixed repository URL. `dirs` is `None` when one of the three calls threw;
    * the result is `None` when the registry is undefined, lacks the entry, or a call threw. */
  function SubViewChain(view: SubView, cardData: CardData, dirs: Option<Dirs>): (r: Option<Chain>)
    ensures r.Some? ==> r.value.id == view.Id() && r.value.status == Running
    ensures r.Some? ==> r.value.repoUrl == view.RepoUrl()
    ensures r.Some? ==> dirs == Some(Dirs(r.value.dataDir, r.value.walletDir, r.value.binaryDir))
    ensures r.None? <==> cardData.None? || IdAbsent(cardData.value, view.Id()) || dirs.None?
    ensures r.Some? ==> && cardData.Some? && Find(cardData.value, view.Id()).Some?
                        && r.value.displayName == Find(cardData.value, view.Id()).value.displayName
                        && r.value.dependencies == Find(cardData.value, view.Id()).value.dependencies
  {
    match cardData
    case None => None
    case Some(cards) =>
      match Find(cards, view.Id())
      case None => None
      case Some(entry) =>
        match dirs
        case None => None
        case Some(d) =>
          Some(entry.(dataDir := d.dataDir, walletDir := d.walletDir, binaryDir := d.binaryDir,
                      status := Running, repoUrl := view.RepoUrl()))
  }

  /** The chain on view after pressing a sub view's switch: back to the original chain while the
    * sub view is on view, else the sub view's chain if it could be built, else no change. */
  function Switched(current: Chain, original: Chain, view: SubView, cardData: CardData, dirs: Option<Dirs>): Chain {
    if current.id == view.Id() then original
    else
      match SubViewChain(view, cardData, dirs)
      case None => current
      case Some(c) => c
  }

  /** The switch's label: the way back while its sub view is on view, the sub view's name otherwise. */
  function SwitchCaption(current: Chain, view: SubView): string {
    if current.id == view.Id() then "BitWindow" else view.Caption()
  }

  /** The switchers are shown only in BitWindow's settings. */
  predicate SwitchersShown(original: Chain) {
    original.id == "bitwindow"
  }

  /** The reset button is offered for every chain on view except the two sub views. */
  predicate ResetOffered(current: Chain) {
    current.id != "bitcoin" && current.id != "enforcer"
  }

  /** Pressing a switch whose sub view is not on view either leaves the view alone or shows the
    * sub view; pressing the same switch again then restores the original chain. */
  lemma {:induction false} SwitchTwiceRestores(current: Chain, original: Chain, view: SubView,
                                               cardData: CardData, dirs: Option<Dirs>,
                                               cardData': CardData, dirs': Option<Dirs>)
    requires current.id != view.Id()
    ensures var next := Switched(current, original, view, cardData, dirs);
      next == current || Switched(next, original, view, cardData', dirs') == original
  {
  }

  /** A switch that changes the view shows the sub view's own chain, running, with the fixed
    * repository URL and the fetched directories; no reset is offered for it. */
  lemma {:induction false} SubViewForcedRunning(current: Chain, original: Chain, view: SubView,
                                                cardData: CardData, dirs: Option<Dirs>)
    requires current.id != view.Id()
    ensures var next := Switched(current, original, view, cardData, dirs);
      next != current ==>
        && next.id == view.Id() && next.status == Running && next.repoUrl == view.RepoUrl()
        && dirs == Some(Dirs(next.dataDir, next.walletDir, next.binaryDir))
        && !ResetOffered(next)
  {
  }

  /** Without a registry, without the entry, or when a directory call fails, the view is unchanged. */
  lemma {:induction false} MissingEntryKeepsView(current: Chain, original: Chain, view: SubView,
                                                 cardData: CardData, dirs: Option<Dirs>)
    requires current.id != view.Id()
    requires cardData.None? || IdAbsent(cardData.value, view.Id()) || dirs.None?
    ensures Switched(current, original, view, cardData, dirs) == current
  {
  }

  /** The switch's label says where pressing it leads: back to BitWindow exactly when it returns
    * to the original chain. */
  lemma {:induction false} CaptionNamesTarget(current: Chain, original: Chain, view: SubView,
                                              cardData: CardData, dirs: Option<Dirs>)
    ensures SwitchCaption(current, view) == "BitWindow" <==> current.id == view.Id()
    ensures current.id == view.Id() ==> Switched(current, original, view, cardData, dirs) == original
  {
  }

  /** The dialog's state. */
  class ChainSettingsModal {
    const original: Chain
    var current: Chain
    var showResetConfirm: bool
    var closed: bool

    constructor (chain: Chain)
      ensures original == chain && current == chain
      ensures !showResetConfirm && !closed
    {
      original := chain;
      current := chain;
      showResetConfirm := false;
      closed := false;
    }

    /** A new `chain` prop replaces the chain on view; the original chain stays. */
    method ChainPropChanged(chain: Chain)
      modifies this
      ensures current == chain
      ensures showResetConfirm == old(showResetConfirm) && closed == old(closed)
    {
      current := chain;
    }

    /** Pressing the Bitcoin Core or Enforcer switch; `cardData` and `dirs` are the registry and
      * the answers of the directory calls at that moment. */
    method PressSwitch(view: SubView, cardData: CardData, dirs: Option<Dirs>)
      requires SwitchersShown(original)
      modifies this
      ensures current == Switched(old(current), original, view, cardData, dirs)
      ensures showResetConfirm == old(showResetConfirm) && closed == old(closed)
    {
      if current.id == view.Id() {
        current := original;
      } else {
        var entry: Option<Chain> := None;
        if cardData.Some? {
          entry := Find(cardData.value, view.Id());
        }
        if entry.Some? && dirs.Some? {
          var d := dirs.value;
          current := entry.value.(dataDir := d.dataDir, walletDir := d.walletDir, binaryDir := d.binaryDir,
                                  status := Running, repoUrl := view.RepoUrl());
        }
      }
    }

    /** Clicking the reset button: it exists only where a reset is offered and does nothing while
      * disabled. */
    method ClickReset()
      modifies this
      ensures showResetConfirm == (old(showResetConfirm)
                                   || (ResetOffered(current) && !ChainCard.ResetDisabled(current.status)))
      ensures current == old(current) && closed == old(closed)
    {
      if ResetOffered(current) && !ChainCard.ResetDisabled(current.status) {
        showResetConfirm := true;
      }
    }

    /** Confirming the reset dialog resets the chain on view, hides the dialog and closes the
      * settings. `cardStatus` is the card's own status at the render the click comes from: the
      * card passes `onReset` only while its own reset is not disabled, so without it the call
      * throws first and nothing changes. */
    method ConfirmReset(cardStatus: Status) returns (intent: Intent)
      requires showResetConfirm
      modifies this
      ensures !ChainCard.ResetDisabled(cardStatus) ==> intent == Reset(current.id) && !showResetConfirm && closed
      ensures ChainCard.ResetDisabled(cardStatus) ==> intent == NoIntent && showResetConfirm && closed == old(closed)
      ensures current == old(current)
    {
      intent := NoIntent;
      if ChainCard.ResetDisabled(cardStatus) {
        return;
      }
      intent := Reset(current.id);
      showResetConfirm := false;
      closed := true;
    }

    /** Dismissing the reset dialog. */
    method CancelReset()
      modifies this
      ensures !showResetConfirm && current == old(current) && closed == old(closed)
    {
      showResetConfirm := false;
    }
  }
}
