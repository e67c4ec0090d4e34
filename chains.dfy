/**
 * The chain records the renderer works with: a card's `chain` prop and the entries of the
 * global registry `window.cardData`, the lifecycle status strings, and the intents the UI
 * hands to the main process (download, start, stop, reset).
 */
module Chains {
  import opened Wrappers

  /** The status strings a chain card distinguishes; `Unrecognized` is any other string. */
  datatype Status =
    | NotDownloaded | Downloading | Extracting | Downloaded
    | Starting | Running | Ready | Stopping | Stopped
    | Unrecognized
  {
    /** `running`, `starting` or `ready`: the process is (coming) up. */
    predicate IsActive() {
      this == Running || this == Starting || this == Ready
    }
  }

  /** A chain record. A record without `dependencies` is held with an empty list. */
  datatype Chain = Chain(
    id: string,
    displayName: string,
    status: Status,
    dependencies: seq<string>,
    repoUrl: string,
    dataDir: string,
    walletDir: string,
    binaryDir: string)

  /** `window.cardData`, the registry of all chains; `None` while it is undefined. */
  type CardData = Option<seq<Chain>>

  /** What the UI asks the main process to do through `onDownload`, `onStart`, `onStop`, `onReset`. */
  datatype Intent =
    | NoIntent
    | Download(id: string)
    | Start(id: string)
    | Stop(id: string, force: bool)
    | Reset(id: string)

  /** `cards.find(c => c.id === id)`: the first entry with that id. */
  function Find(cards: seq<Chain>, id: string): (r: Option<Chain>)
    ensures r.Some? ==> r.value.id == id && r.value in cards
    ensures r.Some? ==> exists k :: 0 <= k < |cards| && cards[k] == r.value && IdAbsent(cards[..k], id)
    ensures r.None? <==> IdAbsent(cards, id)
  {
    if cards == [] then None
    else if cards[0].id == id then
      assert cards[..0] == [];
      Some(cards[0])
    else
      var r := Find(cards[1..], id);
      if r.Some? then
        var k :| 0 <= k < |cards[1..]| && cards[1..][k] == r.value && IdAbsent(cards[1..][..k], id);
        assert cards[..k + 1] == [cards[0]] + cards[1..][..k];
        r
      else
        r
  }

  /** No entry of `cards` has this id. */
  predicate IdAbsent(cards: seq<Chain>, id: string) {
    forall k :: 0 <= k < |cards| ==> cards[k].id != id
  }
}
