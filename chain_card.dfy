/**
 * The chain card: the one button that downloads, starts or stops a chain, gated by a
 * one-second debounce, the dependency check before a start and the running-dependents check
 * before a stop; the status light's health classification and its adaptive poll interval;
 * the reset button's availability; and the file-size label.
 */
module ChainCard {
  import opened Wrappers
  import opened JsString
  import opened Chains

  // ---------------------------------------------------------------- file size label

  /** The unit names, indexed by the number of divisions by 1024. */
  const Units: seq<string> := ["B", "KB", "MB", "GB"]

  /** `''` for a falsy size, otherwise a number and an index into `Units`. */
  datatype SizeLabel = NoLabel | Label(size: real, unitIndex: nat)

  /** 1024 to the power `k`. */
  function Scale(k: nat): (r: real)
    ensures r >= 1.0
  {
    if k == 0 then 1.0 else 1024.0 * Scale(k - 1)
  }

  /** The unit a size is shown in: the largest of B, KB, MB, GB whose scale does not exceed it. */
  function UnitFor(bytes: real): (k: nat)
    ensures k < |Units|
    ensures k > 0 ==> bytes >= Scale(k)
    ensures k < |Units| - 1 ==> bytes < Scale(k + 1)
  {
    if bytes >= Scale(3) then 3
    else if bytes >= Scale(2) then 2
    else if bytes >= Scale(1) then 1
    else 0
  }

  /** `formatFileSize`, without the rounding to one decimal. */
  method FormatFileSize(bytes: real) returns (formatted: SizeLabel)
    ensures formatted == NoLabel <==> bytes == 0.0
    ensures formatted.Label? ==> formatted.unitIndex == UnitFor(bytes)
    ensures formatted.Label? ==> formatted.size * Scale(formatted.unitIndex) == bytes
  {
    if bytes == 0.0 {
      return NoLabel;
    }
    var size := bytes;
    var unitIndex := 0;
    while size >= 1024.0 && unitIndex < |Units| - 1
      invariant 0 <= unitIndex < |Units|
      invariant size * Scale(unitIndex) == bytes
      invariant unitIndex > 0 ==> size >= 1.0
    {
      size := size / 1024.0;
      unitIndex := unitIndex + 1;
    }
    assert Scale(unitIndex + 1) == 1024.0 * Scale(unitIndex);
    formatted := Label(size, unitIndex);
  }

  // ---------------------------------------------------------------- status light

  /** The status light's three colours. */
  datatype Health = Offline | Healthy | Warning

  /** The classification the card's effect makes from the status and the chain id. */
  function ProcessHealth(status: Status, chainId: string): (h: Health)
    ensures h == Healthy <==> status.IsActive()
    ensures h == Warning <==> status == Unrecognized || (status == Stopping && chainId == "bitcoin")
  {
    if status == Stopping && chainId == "bitcoin" then Warning
    else if status == NotDownloaded || status == Downloaded || status == Stopped
         || status == Stopping || status == Downloading || status == Extracting then Offline
    else if status == Running || status == Starting || status == Ready then Healthy
    else Warning
  }

  /** The health after one tick of the block-count poll: a zero count on a polled chain is a warning. */
  function PolledHealth(status: Status, chainId: string, blockCount: int, h: Health): Health {
    if status.IsActive() && chainId != "bitwindow" && blockCount == 0 then Warning else h
  }

  /** A poll tick that finds a zero block count on a chain that should be up turns the light to
    * warning (until the status effect runs again). */
  lemma ZeroBlocksPollWarns(status: Status, chainId: string, h: Health)
    requires status.IsActive() && chainId != "bitwindow"
    ensures PolledHealth(status, chainId, 0, h) == Warning
  {
  }

  /** BitWindow is never polled: its light is exactly the status classification. */
  lemma BitWindowHealthIsStatusHealth(status: Status, blockCount: int)
    ensures PolledHealth(status, "bitwindow", blockCount, ProcessHealth(status, "bitwindow"))
         == ProcessHealth(status, "bitwindow")
  {
  }

  const WarmUpMs: int := 5000
  const FastPollMs: int := 500
  const SlowPollMs: int := 5000

  /** The block-count poll interval for a process that has been up for `runningTime` ms. */
  function PollInterval(runningTime: int): (ms: int)
    ensures ms == FastPollMs || ms == SlowPollMs
    ensures ms == FastPollMs <==> runningTime > WarmUpMs
  {
    if runningTime > WarmUpMs then FastPollMs else SlowPollMs
  }

  /** Polling only gets faster the longer the process has been up. */
  lemma PollIntervalNonIncreasing(t1: int, t2: int)
    requires t1 <= t2
    ensures PollInterval(t2) <= PollInterval(t1)
  {
  }

  /** JavaScript truthiness of the `startTime` state (`null` and `0` are falsy). */
  predicate Started(startTime: Option<int>) {
    startTime.Some? && startTime.value != 0
  }

  /** `startTime ? Date.now() - startTime : 0`. */
  function RunningTime(startTime: Option<int>, now: int): int {
    if Started(startTime) then now - startTime.value else 0
  }

  /** The start time the effect records: stamped on entering `running`, cleared on leaving it. */
  function NextStartTime(status: Status, startTime: Option<int>, now: int): (r: Option<int>)
    ensures status != Running ==> r == None
    ensures status == Running && Started(startTime) ==> r == startTime
    ensures status == Running && !Started(startTime) ==> r == Some(now)
  {
    if status == Running && !Started(startTime) then Some(now)
    else if status != Running then None
    else startTime
  }

  /** Only a chain in `running` is ever polled at the fast rate: `starting` and `ready` keep 5 s. */
  lemma FastPollingOnlyWhileRunning(status: Status, startTime: Option<int>, now: int, later: int)
    requires status != Running
    ensures PollInterval(RunningTime(NextStartTime(status, startTime, now), later)) == SlowPollMs
  {
  }

  // ---------------------------------------------------------------- button and reset

  /** The button's style classes. */
  datatype ButtonStyle = StopBtn | DownloadBtn | DisabledBtn | StartBtn

  /** `getButtonClass`. */
  function ButtonClass(status: Status): ButtonStyle {
    if status == Running || status == Ready || status == Starting then StopBtn
    else if status == NotDownloaded then DownloadBtn
    else if status == Downloading || status == Extracting || status == Stopping then DisabledBtn
    else StartBtn
  }

  /** `getButtonText`. */
  function ButtonText(status: Status): string {
    if status == Running || status == Ready || status == Starting then "Stop"
    else if status == NotDownloaded then "Download"
    else if status == Downloading then "Downloading..."
    else if status == Extracting then "Extracting..."
    else if status == Stopping then "Stopping..."
    else "Start"
  }

  /** `isButtonDisabled`. */
  predicate IsButtonDisabled(status: Status) {
    status == Downloading || status == Extracting || status == Stopping
  }

  /** The reset button's `disabled`; the card also withholds `onReset` from the settings dialog
    * exactly then. */
  predicate ResetDisabled(status: Status) {
    status == NotDownloaded || status == Downloading || status == Extracting || status == Stopping
  }

  /** Text, style and disabled flag agree: each label goes with exactly one style. */
  lemma ButtonLooksConsistent(status: Status)
    ensures IsButtonDisabled(status) <==> ButtonClass(status) == DisabledBtn
    ensures ButtonText(status) == "Stop" <==> ButtonClass(status) == StopBtn
    ensures ButtonText(status) == "Download" <==> ButtonClass(status) == DownloadBtn
    ensures ButtonText(status) == "Start" <==> ButtonClass(status) == StartBtn
  {
  }

  /** The light is green exactly when the button offers "Stop". */
  lemma HealthyIffStopButton(status: Status, chainId: string)
    ensures ProcessHealth(status, chainId) == Healthy <==> ButtonText(status) == "Stop"
  {
  }

  /** Reset is refused in the transient statuses where the button is disabled, and before any download. */
  lemma ResetDisabledIff(status: Status)
    ensures ResetDisabled(status) <==> status == NotDownloaded || IsButtonDisabled(status)
  {
  }

  // ---------------------------------------------------------------- dependency resolution

  /** The ids of `ids` whose presence in `running` equals `keep`, in their order in `ids`. */
  function Select(ids: seq<string>, running: seq<string>, keep: bool): (r: seq<string>)
    ensures |r| <= |ids|
    ensures forall x :: x in r <==> x in ids && (x in running) == keep
  {
    if ids == [] then []
    else
      var last := ids[|ids| - 1];
      assert ids == ids[..|ids| - 1] + [last];
      Select(ids[..|ids| - 1], running, keep) + (if (last in running) == keep then [last] else [])
  }

  /** Selection keeps every occurrence of a selected id and drops every occurrence of the others. */
  lemma {:induction false} SelectCounts(ids: seq<string>, running: seq<string>, keep: bool)
    ensures forall x :: multiset(Select(ids, running, keep))[x]
                        == if (x in running) == keep then multiset(ids)[x] else 0
  {
    if ids != [] {
      var front := ids[..|ids| - 1];
      var last := ids[|ids| - 1];
      assert ids == front + [last];
      assert multiset(ids) == multiset(front) + multiset{last};
      SelectCounts(front, running, keep);
    }
  }

  /** Selection keeps the order of `ids`: selecting from a concatenation concatenates the selections. */
  lemma {:induction false} SelectKeepsOrder(a: seq<string>, b: seq<string>, running: seq<string>, keep: bool)
    ensures Select(a + b, running, keep) == Select(a, running, keep) + Select(b, running, keep)
    decreases |b|
  {
    if b == [] {
      assert a + b == a;
    } else {
      var front := b[..|b| - 1];
      assert (a + b)[..|a + b| - 1] == a + front;
      assert (a + b)[|a + b| - 1] == b[|b| - 1];
      SelectKeepsOrder(a, front, running, keep);
    }
  }

  /** The label of a dependency: its registry `display_name` if the registry has it, else the raw id. */
  function NameOf(id: string, cards: seq<Chain>): (name: string)
    ensures Find(cards, id).Some? ==> name == Find(cards, id).value.displayName
    ensures Find(cards, id).None? ==> name == id
  {
    match Find(cards, id)
    case Some(c) => c.displayName
    case None => id
  }

  /** The labels of `ids`, position by position. */
  function DisplayNames(ids: seq<string>, cards: seq<Chain>): (names: seq<string>)
    ensures |names| == |ids|
    ensures forall i :: 0 <= i < |ids| ==> names[i] == NameOf(ids[i], cards)
  {
    if ids == [] then []
    else DisplayNames(ids[..|ids| - 1], cards) + [NameOf(ids[|ids| - 1], cards)]
  }

  /** What `checkDependencies` reports: the labels of the dependencies not running, in declared order;
    * nothing at all when the registry is undefined (the lookup throws and the catch returns []). */
  function MissingDependencies(deps: seq<string>, running: seq<string>, cardData: CardData): seq<string> {
    match cardData
    case None => []
    case Some(cards) => DisplayNames(Select(deps, running, false), cards)
  }

  /** The ids of the registry entries that list `id` among their dependencies, in registry order. */
  function ReverseDependents(cards: seq<Chain>, id: string): (r: seq<string>)
    ensures |r| <= |cards|
    ensures forall x :: x in r <==> exists k :: 0 <= k < |cards| && cards[k].id == x && id in cards[k].dependencies
  {
    if cards == [] then []
    else
      var last := cards[|cards| - 1];
      var front := cards[..|cards| - 1];
      var r := ReverseDependents(front, id) + (if id in last.dependencies then [last.id] else []);
      assert forall k :: 0 <= k < |front| ==> cards[k] == front[k];
      r
  }

  /** What `getRunningDependents` reports: the reverse dependents that are running. */
  function RunningDependents(id: string, running: seq<string>, cardData: CardData): seq<string> {
    match cardData
    case None => []
    case Some(cards) => Select(ReverseDependents(cards, id), running, true)
  }

  /** `checkDependencies`: one pass over the declared dependencies, pushing the label of each one
    * that is not running. */
  method CheckDependencies(chain: Chain, runningNodes: seq<string>, cardData: CardData)
    returns (missing: seq<string>)
    ensures missing == MissingDependencies(chain.dependencies, runningNodes, cardData)
  {
    var deps := chain.dependencies;
    missing := [];
    for i := 0 to |deps|
      invariant cardData.Some? ==> missing == DisplayNames(Select(deps[..i], runningNodes, false), cardData.value)
      invariant cardData.None? ==> missing == []
    {
      var depId := deps[i];
      assert deps[..i + 1][..i] == deps[..i];
      if depId !in runningNodes {
        if cardData.None? {
          // the registry lookup throws; the catch answers with an empty list
          return [];
        }
        var selected := Select(deps[..i], runningNodes, false);
        assert (selected + [depId])[..|selected|] == selected;
        var depChain := Find(cardData.value, depId);
        if depChain.Some? {
          missing := missing + [depChain.value.displayName];
        } else {
          missing := missing + [depId];
        }
      }
    }
    assert deps[..|deps|] == deps;
  }

  /** `checkReverseDependencies`: one pass over the registry collecting the ids that depend on `chainId`. */
  method CheckReverseDependencies(chainId: string, cardData: CardData) returns (reverseDeps: seq<string>)
    ensures cardData.None? ==> reverseDeps == []
    ensures cardData.Some? ==> reverseDeps == ReverseDependents(cardData.value, chainId)
  {
    reverseDeps := [];
    if cardData.None? {
      // `forEach` on an undefined registry throws; the catch answers with an empty list
      return;
    }
    var cards := cardData.value;
    for i := 0 to |cards|
      invariant reverseDeps == ReverseDependents(cards[..i], chainId)
    {
      assert cards[..i + 1][..i] == cards[..i];
      if chainId in cards[i].dependencies {
        reverseDeps := reverseDeps + [cards[i].id];
      }
    }
    assert cards[..|cards|] == cards;
  }

  /** `getRunningDependents`. */
  method GetRunningDependents(chainId: string, runningNodes: seq<string>, cardData: CardData)
    returns (dependents: seq<string>)
    ensures dependents == RunningDependents(chainId, runningNodes, cardData)
  {
    var reverseDeps := CheckReverseDependencies(chainId, cardData);
    dependents := Select(reverseDeps, runningNodes, true);
  }

  /** The check before a start: nothing is missing exactly when every dependency is running
    * (or when the registry is undefined, where the check fails open). */
  lemma {:induction false} MissingEmptyIff(deps: seq<string>, running: seq<string>, cardData: CardData)
    ensures MissingDependencies(deps, running, cardData) == []
        <==> cardData.None? || forall d :: d in deps ==> d in running
  {
    if cardData.Some? {
      var sel := Select(deps, running, false);
      if sel != [] {
        assert sel[0] in sel;
        assert |DisplayNames(sel, cardData.value)| == |sel|;
      }
    }
  }

  /** A chain with no dependencies never has missing ones. */
  lemma NoDependenciesNothingMissing(running: seq<string>, cardData: CardData)
    ensures MissingDependencies([], running, cardData) == []
  {
  }

  /** The running dependents are exactly the registry chains that depend on `id` and are running;
    * in particular they are among the reverse dependents. */
  lemma RunningDependentsExact(id: string, running: seq<string>, cards: seq<Chain>)
    ensures forall x :: (x in RunningDependents(id, running, Some(cards))
                         <==> x in ReverseDependents(cards, id) && x in running)
    ensures |RunningDependents(id, running, Some(cards))| <= |ReverseDependents(cards, id)|
  {
  }

  // ---------------------------------------------------------------- the action button

  /** What one accepted click does: the intent issued, the missing-dependency tooltip shown, and
    * whether the force-stop dialog opens. */
  datatype Reaction = Reaction(intent: Intent, missingTooltip: Option<string>, askForceStop: bool)

  /** The tooltip listing missing dependencies. */
  function MissingTooltip(missing: seq<string>): string {
    "Missing dependencies: " + Join(missing, ", ")
  }

  /** The status dispatch of `handleAction` once the debounce has let the click through. */
  function ActionReaction(chain: Chain, runningNodes: seq<string>, cardData: CardData): Reaction {
    if chain.status == NotDownloaded then
      Reaction(Download(chain.id), None, false)
    else if chain.status == Downloaded || chain.status == Stopped then
      var missing := MissingDependencies(chain.dependencies, runningNodes, cardData);
      if |missing| > 0 then Reaction(NoIntent, Some(MissingTooltip(missing)), false)
      else Reaction(Start(chain.id), None, false)
    else if chain.status == Running || chain.status == Ready then
      if |RunningDependents(chain.id, runningNodes, cardData)| > 0 then Reaction(NoIntent, None, true)
      else Reaction(Stop(chain.id, false), None, false)
    else
      Reaction(NoIntent, None, false)
  }

  /** A start is requested only from `downloaded`/`stopped` and only when every dependency runs
    * (the registry being defined); and then it is requested. */
  lemma {:induction false} StartIffDependenciesRunning(chain: Chain, runningNodes: seq<string>, cards: seq<Chain>)
    ensures ActionReaction(chain, runningNodes, Some(cards)).intent.Start?
        <==> (chain.status == Downloaded || chain.status == Stopped)
             && forall d :: d in chain.dependencies ==> d in runningNodes
    ensures ActionReaction(chain, runningNodes, Some(cards)).intent.Start?
        ==> ActionReaction(chain, runningNodes, Some(cards)).intent == Start(chain.id)
  {
    MissingEmptyIff(chain.dependencies, runningNodes, Some(cards));
  }

  /** A missing dependency blocks the start and shows the tooltip instead. */
  lemma {:induction false} MissingDependencyShowsTooltip(chain: Chain, runningNodes: seq<string>, cards: seq<Chain>, d: string)
    requires chain.status == Downloaded || chain.status == Stopped
    requires d in chain.dependencies && d !in runningNodes
    ensures ActionReaction(chain, runningNodes, Some(cards)).intent == NoIntent
    ensures ActionReaction(chain, runningNodes, Some(cards)).missingTooltip
        == Some(MissingTooltip(MissingDependencies(chain.dependencies, runningNodes, Some(cards))))
  {
    MissingEmptyIff(chain.dependencies, runningNodes, Some(cards));
  }

  /** A plain stop is requested only from `running`/`ready` with no running dependent; with one,
    * the force-stop dialog opens and nothing is issued. */
  lemma {:induction false} StopIffNoRunningDependents(chain: Chain, runningNodes: seq<string>, cardData: CardData)
    requires chain.status == Running || chain.status == Ready
    ensures var r := ActionReaction(chain, runningNodes, cardData);
      && (r.intent.Stop? <==> RunningDependents(chain.id, runningNodes, cardData) == [])
      && (r.intent.Stop? ==> r.intent == Stop(chain.id, false) && !r.askForceStop)
      && (!r.intent.Stop? ==> r.intent == NoIntent && r.askForceStop)
  {
  }

  /** A click in a transient or unknown status does nothing, including `starting`, where the
    * button reads "Stop" and is enabled. */
  lemma InertStatuses(chain: Chain, runningNodes: seq<string>, cardData: CardData)
    requires chain.status in {Downloading, Extracting, Starting, Stopping, Unrecognized}
    ensures ActionReaction(chain, runningNodes, cardData) == Reaction(NoIntent, None, false)
    ensures chain.status == Starting ==> ButtonText(chain.status) == "Stop" && !IsButtonDisabled(chain.status)
  {
  }

  /** Whatever a click issues matches the button's label. */
  lemma IntentMatchesLabel(chain: Chain, runningNodes: seq<string>, cardData: CardData)
    ensures var i := ActionReaction(chain, runningNodes, cardData).intent;
      && (i.Download? ==> ButtonText(chain.status) == "Download")
      && (i.Start? ==> ButtonText(chain.status) == "Start")
      && (i.Stop? ==> ButtonText(chain.status) == "Stop")
      && (IsButtonDisabled(chain.status) ==> i == NoIntent)
  {
  }

  /** Clicks closer together than this are ignored. */
  const DebounceMs: int := 1000

  /** A chain card's own state. The chain prop, `runningNodes` and `window.cardData` are passed to
    * each handler; `Date.now()` is the parameter `now`. */
  class Card {
    var lastActionTime: int
    var tooltipText: string
    var tooltipVisible: bool
    var showForceStop: bool
    var showResetConfirm: bool
    var processHealth: Health
    var blockCount: int
    var startTime: Option<int>

    /** The state on mount. */
    constructor ()
      ensures lastActionTime == 0 && tooltipText == "" && !tooltipVisible
      ensures !showForceStop && !showResetConfirm
      ensures processHealth == Offline && blockCount == -1 && startTime == None
    {
      lastActionTime := 0;
      tooltipText := "";
      tooltipVisible := false;
      showForceStop := false;
      showResetConfirm := false;
      processHealth := Offline;
      blockCount := -1;
      startTime := None;
    }

    /** `handleAction`: a click on the main button, which is enabled only outside the statuses
      * `isButtonDisabled` names. */
    method HandleAction(chain: Chain, now: int, runningNodes: seq<string>, cardData: CardData)
      returns (intent: Intent)
      requires !IsButtonDisabled(chain.status)
      modifies this
      ensures now - old(lastActionTime) < DebounceMs ==> intent == NoIntent && unchanged(this)
      ensures now - old(lastActionTime) >= DebounceMs ==>
        var r := ActionReaction(chain, runningNodes, cardData);
        && lastActionTime == now
        && intent == r.intent
        && (r.missingTooltip.Some? ==> tooltipText == r.missingTooltip.value && tooltipVisible)
        && (r.missingTooltip.None? ==> tooltipText == old(tooltipText) && tooltipVisible == old(tooltipVisible))
        && showForceStop == (old(showForceStop) || r.askForceStop)
        && showResetConfirm == old(showResetConfirm)
        && processHealth == old(processHealth) && blockCount == old(blockCount) && startTime == old(startTime)
    {
      intent := NoIntent;
      if now - lastActionTime < DebounceMs {
        return;
      }
      lastActionTime := now;
      if chain.status == NotDownloaded {
        intent := Download(chain.id);
      } else if chain.status == Downloaded || chain.status == Stopped {
        var missing := CheckDependencies(chain, runningNodes, cardData);
        if |missing| > 0 {
          tooltipText := MissingTooltip(missing);
          tooltipVisible := true;
          return;
        }
        intent := Start(chain.id);
      } else if chain.status == Running || chain.status == Ready {
        var dependents := GetRunningDependents(chain.id, runningNodes, cardData);
        if |dependents| > 0 {
          showForceStop := true;
          return;
        }
        intent := Stop(chain.id, false);
      }
    }

    /** `handleForceStop`: stop this chain regardless; nothing is issued for its dependents. */
    method HandleForceStop(chain: Chain) returns (intent: Intent)
      modifies this
      ensures intent == Stop(chain.id, true)
      ensures !showForceStop
      ensures lastActionTime == old(lastActionTime) && tooltipText == old(tooltipText)
      ensures tooltipVisible == old(tooltipVisible) && showResetConfirm == old(showResetConfirm)
      ensures processHealth == old(processHealth) && blockCount == old(blockCount) && startTime == old(startTime)
    {
      intent := Stop(chain.id, true);
      showForceStop := false;
    }

    /** The force-stop dialog's close button. */
    method CloseForceStop()
      modifies this
      ensures !showForceStop
      ensures lastActionTime == old(lastActionTime) && tooltipText == old(tooltipText)
      ensures tooltipVisible == old(tooltipVisible) && showResetConfirm == old(showResetConfirm)
      ensures processHealth == old(processHealth) && blockCount == old(blockCount) && startTime == old(startTime)
    {
      showForceStop := false;
    }

    /** The mouse leaving the button, or the tooltip's 3 s timer, hides the tooltip. */
    method HideTooltip()
      modifies this`tooltipVisible
      ensures !tooltipVisible
    {
      tooltipVisible := false;
    }

    /** A click on the reset (trash) button; a disabled button ignores it. */
    method ClickReset(chain: Chain)
      modifies this`showResetConfirm
      ensures showResetConfirm == (old(showResetConfirm) || !ResetDisabled(chain.status))
    {
      if !ResetDisabled(chain.status) {
        showResetConfirm := true;
      }
    }

    /** Confirming the reset dialog resets this chain and closes the dialog. */
    method ConfirmReset(chain: Chain) returns (intent: Intent)
      modifies this`showResetConfirm
      ensures intent == Reset(chain.id) && !showResetConfirm
    {
      intent := Reset(chain.id);
      showResetConfirm := false;
    }

    /** Closing the reset dialog. */
    method CancelReset()
      modifies this`showResetConfirm
      ensures !showResetConfirm
    {
      showResetConfirm := false;
    }

    /** The effect run on a change of id, status, block count or start time: stamps or clears the
      * start time, classifies the health, and picks the poll interval from the start time it saw. */
    method StatusEffect(chain: Chain, now: int) returns (intervalMs: int)
      modifies this`startTime, this`processHealth
      ensures startTime == NextStartTime(chain.status, old(startTime), now)
      ensures processHealth == ProcessHealth(chain.status, chain.id)
      ensures intervalMs == PollInterval(RunningTime(old(startTime), now))
    {
      var seenStart := startTime;
      if chain.status == Running && !Started(startTime) {
        startTime := Some(now);
      } else if chain.status != Running {
        startTime := None;
      }
      processHealth := ProcessHealth(chain.status, chain.id);
      var runningTime := if Started(seenStart) then now - seenStart.value else 0;
      intervalMs := if runningTime > WarmUpMs then FastPollMs else SlowPollMs;
    }

    /** One tick of the poll: for an up chain other than BitWindow, asks for the block count and
      * turns the light to warning while the last count seen is zero. */
    method PollTick(chain: Chain) returns (fetchRequested: bool)
      modifies this`processHealth
      ensures fetchRequested <==> chain.status.IsActive() && chain.id != "bitwindow"
      ensures processHealth == PolledHealth(chain.status, chain.id, blockCount, old(processHealth))
    {
      fetchRequested := false;
      if chain.status == Running || chain.status == Starting || chain.status == Ready {
        if chain.id != "bitwindow" {
          fetchRequested := true;
          if blockCount == 0 {
            processHealth := Warning;
          }
        }
      }
    }

    /** The answer to a block-count request: the count, or -1 when the request failed. */
    method BlockCountFetched(result: Option<int>)
      modifies this`blockCount
      ensures blockCount == result.GetOr(-1)
    {
      match result
      case Some(count) => blockCount := count;
      case None => blockCount := -1;
    }
  }
}
