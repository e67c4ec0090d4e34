# Drivechain launcher renderer: a Dafny model

This project models the decision logic and UI state machines in the renderer (React) side of the
Drivechain launcher. The launcher downloads, starts and stops the BIP300/301 sidechain
nodes, and the renderer decides which of those requests to make. The model covers:

- the **chain card**: one button that downloads, starts or stops a chain.
  - A one-second debounce gates each click.
  - A check that every dependency is running comes before a start.
  - A check for running dependents comes before a stop; with such dependents, a force-stop dialog opens instead.
  - The card also has a status light: a health classification plus an adaptive block-count poll interval.
  - A reset button with an availability predicate, and the file-size label.
- the **wallet page's mnemonic reveal**: five keys, at most one phrase shown at a time, and starter mnemonics fetched once and cached.
- the **fast-withdrawal page**, a form in two phases:
  - the request phase: local validation, then a server request that returns an L2 address, a fee and a hash;
  - the payment phase: the transaction id goes to the server, and on success a confirmation is shown.
- the **chain settings dialog**: BitWindow's switch to the Bitcoin Core and Enforcer sub views and back, and a reset of the chain on view.
- the **repository shorthand** on unreleased chains' cards: `owner/repo`, and `repo` alone.
- the **theme provider**: dark mode, following the system colour scheme, and the two `localStorage` keys behind them.
- the **UI settings** and **About dialog** slices of the Redux store.

Modules:

- `Wrappers`, `JsString` and `Chains` hold what the others share:
  - an option type;
  - the JavaScript string built-ins the components use (`trim`, `split`, `join`, `indexOf`, `replace`), stated on `seq<char>`;
  - the chain record, the status strings and the intents sent to the main process.
- One module per source file:
  - `ChainCard` for `Card.js`;
  - `Wallet` for `WalletModal.js`;
  - `FastWithdrawal` for `FastWithdrawalModal.js`;
  - `ChainSettings` for `ChainSettingsModal.js`;
  - `UnreleasedCard` for `UnreleasedCard.js`;
  - `ThemeContext` for `ThemeContext.js`;
  - `SettingsSlice` for `settingsSlice.js`;
  - `AboutModalSlice` for `aboutModalSlice.js`.

Where a component updates React state, the model has a class with those fields. Each of its methods changes them step by step, as the handler does. Each method's postcondition ties the new state to a pure function of the old state, and lemmas prove the component's promises about those functions.

Calls to the main process do not happen in the model; their results arrive as method parameters:
- `requestWithdrawal`, `notifyPaymentComplete` and `getWalletStarter`;
- the three directory queries;
- `getUISettings`.

Likewise `Date.now()`, the system colour preference, `runningNodes` and the global registry `window.cardData` are parameters. The registry is `None` while it is undefined.

## Model

| member | source | states |
|---|---|---|
| Chains.Find | src/components/Card.js:130 | `cards.find(c => c.id === id)`: the entry returned has the id, no earlier entry has it, and the result is absent exactly when no entry has the id |
| JsString.TrimStartRemovesBlankPrefix | src/components/FastWithdrawalModal.js:41 | what `trim` removes at the front is a whitespace-only prefix, and the rest is the string's own suffix |
| JsString.TrimEndRemovesBlankSuffix | src/components/FastWithdrawalModal.js:86 | what `trim` removes at the back is a whitespace-only suffix, and the rest is the string's own prefix |
| JsString.TrimIsMiddle | src/components/FastWithdrawalModal.js:41 | `trim` keeps a contiguous middle of the string; everything before and after it is whitespace |
| JsString.TrimEmptyIffBlank | src/components/FastWithdrawalModal.js:41 | `!s.trim()` holds exactly for strings made only of ECMAScript whitespace (both directions) |
| JsString.Trim | src/components/FastWithdrawalModal.js:41 | `trim` never lengthens a string, and the result neither starts nor ends with whitespace (`TrimStartRemovesBlankPrefix`, `TrimEndRemovesBlankSuffix` give what is removed) |
| JsString.Split | src/components/UnreleasedCard.js:19 | `split` on one character gives at least one piece, and no piece contains the separator |
| JsString.SplitCount | src/components/UnreleasedCard.js:19 | `split` on one character gives one more piece than there are separators |
| JsString.JoinSplit | src/components/UnreleasedCard.js:19-21 | joining the pieces of a split with the same separator gives the string back |
| JsString.SplitJoin | src/components/UnreleasedCard.js:19-24 | splitting a join of separator-free pieces gives the pieces back |
| JsString.Join | src/components/UnreleasedCard.js:21 | `join`: pieces with the separator between each two (characterised by `JoinSplit`, `SplitJoin`, `JoinSplitAt`, `SeparatorsInJoin`) |
| JsString.JoinSplitAt | src/components/UnreleasedCard.js:19-21 | a join is the join of the first k pieces, the separator, and the join of the rest, so a join of trailing pieces is a suffix |
| JsString.SeparatorsInJoin | src/components/UnreleasedCard.js:21 | a join of n separator-free pieces contains exactly n-1 separators |
| JsString.IndexOfFrom | src/components/UnreleasedCard.js:18 | the index returned is the first occurrence at or after the start; absent means no occurrence |
| JsString.ReplaceFirst | src/components/UnreleasedCard.js:18 | `replace` with a string pattern replaces only the first occurrence (`IndexOfFrom`), and leaves the string alone without one; `RemovePrefix` states the case used |
| JsString.RemovePrefix | src/components/UnreleasedCard.js:18 | replacing the first occurrence of p with nothing in p + t gives t |
| ChainCard.UnitFor | src/components/Card.js:18-24 | the loop exits at unit index k < 4 with size ≥ 1024^k when k > 0 and size < 1024^(k+1) when k < 3; sizes below 1 KB, negative ones included, stay in B |
| ChainCard.FormatFileSize | src/components/Card.js:16-25 | the label is empty exactly for size 0; otherwise the shown number times 1024^unit is the size, and the unit is `UnitFor` of the size |
| ChainCard.ProcessHealth | src/components/Card.js:80-95 | healthy exactly for running/starting/ready; warning exactly for bitcoin while stopping or an unknown status; offline otherwise |
| ChainCard.ZeroBlocksPollWarns | src/components/Card.js:100-111 | a polled block count of 0 on an up chain other than BitWindow turns the light to warning |
| ChainCard.BitWindowHealthIsStatusHealth | src/components/Card.js:105 | BitWindow is never polled, so its light is the status classification alone |
| ChainCard.PolledHealth | src/components/Card.js:100-111 | a count of 0 on an up chain other than BitWindow gives warning, else the light is unchanged (`ZeroBlocksPollWarns`, `BitWindowHealthIsStatusHealth`) |
| ChainCard.PollInterval | src/components/Card.js:97-98 | the interval is 500 ms exactly when the running time exceeds 5000 ms, and 5000 ms otherwise |
| ChainCard.PollIntervalNonIncreasing | src/components/Card.js:97-98 | a longer running time never gives a slower poll |
| ChainCard.NextStartTime | src/components/Card.js:54-59 | the start time is stamped on entering running, kept while running, and cleared in any other status |
| ChainCard.FastPollingOnlyWhileRunning | src/components/Card.js:54-98 | outside `running` the start time is cleared, so starting and ready chains are polled every 5 s |
| ChainCard.ButtonClass | src/components/Card.js:246-256 | `getButtonClass`; consistent with text and disabled flag by `ButtonLooksConsistent` |
| ChainCard.ButtonText | src/components/Card.js:258-272 | `getButtonText`; "Stop" exactly when healthy (`HealthyIffStopButton`) |
| ChainCard.IsButtonDisabled | src/components/Card.js:279-283 | disabled exactly while downloading, extracting or stopping (`ButtonLooksConsistent`) |
| ChainCard.ResetDisabled | src/components/Card.js:383-388 | reset disabled before a download and while the main button is disabled (`ResetDisabledIff`); also when the card withholds `onReset` |
| ChainCard.ButtonLooksConsistent | src/components/Card.js:246-283 | button disabled exactly with the disabled style; "Stop", "Download" and "Start" each go with exactly their own style |
| ChainCard.HealthyIffStopButton | src/components/Card.js:258-260 | the light is healthy exactly when the button reads "Stop" |
| ChainCard.ResetDisabledIff | src/components/Card.js:383-388 | reset is disabled exactly before a download and in the statuses where the main button is disabled |
| ChainCard.Select | src/components/Card.js:128-137 | keeps exactly the ids whose presence in the running list matches, never more than given (order and multiplicity: `SelectCounts`, `SelectKeepsOrder`) |
| ChainCard.SelectCounts | src/components/Card.js:128-137 | every occurrence of a selected id is kept and every occurrence of another is dropped |
| ChainCard.SelectKeepsOrder | src/components/Card.js:128-137 | selecting from a concatenation is the concatenation of the selections, so the declared order is kept |
| ChainCard.NameOf | src/components/Card.js:130-135 | a dependency's label is its registry display name when the registry has it, else its raw id |
| ChainCard.DisplayNames | src/components/Card.js:128-137 | one label per id, position by position |
| ChainCard.ReverseDependents | src/components/Card.js:146-160 | exactly the ids of registry entries whose dependencies include the chain |
| ChainCard.CheckDependencies | src/components/Card.js:121-144 | the loop pushes the labels of exactly the non-running dependencies in declared order; an undefined registry gives [] |
| ChainCard.CheckReverseDependencies | src/components/Card.js:146-160 | the loop collects exactly the reverse dependents in registry order; an undefined registry gives [] |
| ChainCard.GetRunningDependents | src/components/Card.js:162-165 | the reverse dependents filtered by the running list |
| ChainCard.MissingDependencies | src/components/Card.js:121-144 | the labels of the non-running dependencies in declared order, [] with no registry (`CheckDependencies`, `MissingEmptyIff`) |
| ChainCard.RunningDependents | src/components/Card.js:162-165 | the running reverse dependents (`GetRunningDependents`, `RunningDependentsExact`) |
| ChainCard.MissingTooltip | src/components/Card.js:182-183 | the tooltip text "Missing dependencies: " with the labels joined by ", " (`MissingDependencyShowsTooltip`) |
| ChainCard.ActionReaction | src/components/Card.js:175-206 | what a click dispatches by status (`StartIffDependenciesRunning`, `MissingDependencyShowsTooltip`, `StopIffNoRunningDependents`, `InertStatuses`, `IntentMatchesLabel`) |
| ChainCard.MissingEmptyIff | src/components/Card.js:121-144 | nothing is missing exactly when every dependency runs, or when the registry is undefined and the lookup's exception is swallowed |
| ChainCard.NoDependenciesNothingMissing | src/components/Card.js:124 | a chain without dependencies never misses one |
| ChainCard.RunningDependentsExact | src/components/Card.js:162-165 | a running dependent is a reverse dependent that runs, and every such one is listed |
| ChainCard.StartIffDependenciesRunning | src/components/Card.js:178-196 | a start is requested exactly from downloaded/stopped with every dependency running, and for this chain |
| ChainCard.MissingDependencyShowsTooltip | src/components/Card.js:180-193 | a non-running dependency blocks the start and shows "Missing dependencies: " followed by the labels |
| ChainCard.StopIffNoRunningDependents | src/components/Card.js:197-205 | from running/ready a plain stop is requested exactly when no dependent runs; otherwise the force-stop dialog opens and nothing is sent |
| ChainCard.InertStatuses | src/components/Card.js:176-206 | a click while downloading, extracting, starting, stopping or in an unknown status does nothing, even in starting where the button reads "Stop" and is enabled |
| ChainCard.IntentMatchesLabel | src/components/Card.js:167-283 | a download, start or stop is sent only when the button reads "Download", "Start" or "Stop"; a disabled button sends nothing |
| ChainCard.Card.constructor | src/components/Card.js:44-51 | the card's initial state |
| ChainCard.Card.HandleAction | src/components/Card.js:167-210 | a click on the enabled button (Card.js 332) within 1000 ms of the last accepted one changes nothing and sends nothing; otherwise it records the time, sends the dispatched intent, shows the tooltip or opens the force-stop dialog |
| ChainCard.Card.HandleForceStop | src/components/Card.js:212-220 | force stop sends `stop(id, true)` for this chain only and closes the dialog |
| ChainCard.Card.CloseForceStop | src/components/Card.js:438 | closing the force-stop dialog only hides it |
| ChainCard.Card.HideTooltip | src/components/Card.js:274-277 | mouse leave hides the tooltip |
| ChainCard.Card.ClickReset | src/components/Card.js:379-388 | the reset dialog opens unless the reset button is disabled |
| ChainCard.Card.ConfirmReset | src/components/Card.js:450-453 | confirming sends a reset of this chain and hides the dialog |
| ChainCard.Card.CancelReset | src/components/Card.js:454 | closing the reset dialog hides it |
| ChainCard.Card.StatusEffect | src/components/Card.js:54-98 | the effect stamps or clears the start time, sets the health classification and picks the interval from the start time it saw |
| ChainCard.Card.PollTick | src/components/Card.js:100-113 | a tick asks for the block count exactly for up chains other than BitWindow, and turns the light to warning while the last count is 0 |
| ChainCard.Card.BlockCountFetched | src/components/Card.js:70-78 | the block count becomes the answer, or -1 when the request failed |
| Wallet.StarterType | src/components/WalletModal.js:82-98 | the starter type is the key's name without its `layer2_` prefix, one of the five types |
| Wallet.StarterTypeInjective | src/components/WalletModal.js:82-98 | distinct keys ask for distinct starters |
| Wallet.AllHidden | src/components/WalletModal.js:9-15 | all five keys present, all hidden |
| Wallet.OnlyRevealed | src/components/WalletModal.js:112-119 | all five keys present, exactly the given one revealed |
| Wallet.NeedsFetch | src/components/WalletModal.js:79 | a starter is fetched exactly when a hidden key still holds the placeholder (`RealPhraseKept`) |
| Wallet.NextRevealed | src/components/WalletModal.js:65-120 | the toggle's new flags (`ToggleKeepsAtMostOne`, `ToggleRevealedHidesAll`, `ToggleHiddenRevealsOnlyIt`, `ToggleTwice`) |
| Wallet.NextMnemonics | src/components/WalletModal.js:99-107 | the toggle's new cache (`RealPhraseKept`, `CacheChangesOnlyOnSuccess`) |
| Wallet.ToggleKeepsAtMostOne | src/components/WalletModal.js:65-119 | after any toggle at most one key is revealed |
| Wallet.ToggleRevealedHidesAll | src/components/WalletModal.js:67-75 | toggling a revealed key hides every key |
| Wallet.ToggleHiddenRevealsOnlyIt | src/components/WalletModal.js:112-119 | toggling a hidden key reveals it alone, whether or not the fetch succeeded |
| Wallet.ToggleTwice | src/components/WalletModal.js:65-119 | toggling the same key twice leaves it alone revealed if it was, else nothing revealed |
| Wallet.RealPhraseKept | src/components/WalletModal.js:79-109 | a cached real phrase is never fetched again and never overwritten |
| Wallet.CacheChangesOnlyOnSuccess | src/components/WalletModal.js:99-107 | the cache changes only at the toggled key, only on a successful fetch of a placeholder, and only to the fetched data |
| Wallet.WalletModal.constructor | src/components/WalletModal.js:9-63 | all keys hidden, every phrase the placeholder |
| Wallet.WalletModal.ToggleMnemonic | src/components/WalletModal.js:65-120 | the toggle keeps at most one key revealed, asks for a starter exactly when it reveals a placeholder, and updates flags and cache as the reference functions say |
| FastWithdrawal.Parsed | src/components/FastWithdrawalModal.js:38-45 | `parseFloat` of the amount field: an empty field reads as NaN, a number stays that number |
| FastWithdrawal.TotalToPay | src/components/FastWithdrawalModal.js:49 | a NaN or empty amount gives NaN, a number gives a number, and a non-negative fee never lowers the total |
| FastWithdrawal.TotalExample | src/components/FastWithdrawalModal.js:49 | 1.5 coins with a 2000-satoshi fee come to 1.50002 |
| FastWithdrawal.ErrorText | src/components/FastWithdrawalModal.js:56 | a thrown error's own message is shown when it has one, and the text is empty only if both are |
| FastWithdrawal.InitialForm | src/components/FastWithdrawalModal.js:8-17 | the initial state, with the amount field empty; `ResetState` and the constructor return to it |
| FastWithdrawal.Submit | src/components/FastWithdrawalModal.js:34-59 | `handleSubmit` as a function of the form and the server's answer (`SubmitValidatesLocally`, `NaNAmountIsSent`, `MissingAddressRejected`, `SubmitSuccess`, `SubmitPhase`, `SubmitKeepsPhases`) |
| FastWithdrawal.Complete | src/components/FastWithdrawalModal.js:82-97 | `handleComplete` as a function of the form and the server's answer (`CompleteRejectsBlankTxid`, `FailedCompletionRetryable`, `CompleteSuccess`, `CompletePhase`, `CompleteKeepsPhases`) |
| FastWithdrawal.ScreenOf | src/components/FastWithdrawalModal.js:105-295 | request form without a hash, payment form with one, success popup after completion with a message (`SubmitPhase`, `CompletePhase`) |
| FastWithdrawal.SubmitValidatesLocally | src/components/FastWithdrawalModal.js:36-43 | the amount is checked first: a non-positive amount gets the amount message, a blank address with a valid amount the address message; no server call, and nothing but the error changes |
| FastWithdrawal.NaNAmountIsSent | src/components/FastWithdrawalModal.js:38-45 | a NaN amount passes the amount check and is sent to the server |
| FastWithdrawal.MissingAddressRejected | src/components/FastWithdrawalModal.js:46-48 | an answer with a missing or empty L2 address is an error and leaves the hash and payment instructions as they were |
| FastWithdrawal.SubmitSuccess | src/components/FastWithdrawalModal.js:45-54 | a valid request with a complete answer sends the request, shows amount plus fee and the L2 address, and holds the server's hash |
| FastWithdrawal.CompleteRejectsBlankTxid | src/components/FastWithdrawalModal.js:86-88 | a blank transaction id is refused without a server call, and nothing else changes |
| FastWithdrawal.FailedCompletionRetryable | src/components/FastWithdrawalModal.js:84-96 | a failed completion keeps hash and completion flag, and a retry after it does exactly what a first attempt would |
| FastWithdrawal.CompleteSuccess | src/components/FastWithdrawalModal.js:90-92 | a confirmed completion reports the hash and txid, stores the message and sets the completion flag |
| FastWithdrawal.ErrorClearedFirst | src/components/FastWithdrawalModal.js:34-97 | submit and complete clear the previous error first: their outcome does not depend on it |
| FastWithdrawal.SubmitPhase | src/components/FastWithdrawalModal.js:105-118 | from the request form a submit stays on it unless the answer held an address and a hash, which leads to the payment form |
| FastWithdrawal.CompletePhase | src/components/FastWithdrawalModal.js:211-299 | from the payment form a completion reaches the success popup exactly on a non-empty confirmation; a failure stays on the payment form |
| FastWithdrawal.SubmitKeepsPhases | src/components/FastWithdrawalModal.js:49-54 | a submit keeps "a hash comes with its payment instructions" |
| FastWithdrawal.CompleteKeepsPhases | src/components/FastWithdrawalModal.js:90-92 | a completion keeps "completion only follows a hash" |
| FastWithdrawal.FastWithdrawalModal.constructor | src/components/FastWithdrawalModal.js:8-17 | the initial form |
| FastWithdrawal.FastWithdrawalModal.EditAmount | src/components/FastWithdrawalModal.js:128 | typing changes the amount only |
| FastWithdrawal.FastWithdrawalModal.EditAddress | src/components/FastWithdrawalModal.js:153 | typing changes the address only |
| FastWithdrawal.FastWithdrawalModal.SelectServer | src/components/FastWithdrawalModal.js:178 | choosing changes the server only |
| FastWithdrawal.FastWithdrawalModal.SelectLayer2Chain | src/components/FastWithdrawalModal.js:193 | choosing changes the L2 chain only |
| FastWithdrawal.FastWithdrawalModal.EditTxid | src/components/FastWithdrawalModal.js:267 | typing changes the transaction id only |
| FastWithdrawal.FastWithdrawalModal.DismissError | src/components/FastWithdrawalModal.js:110 | closing the error popup clears the error only |
| FastWithdrawal.FastWithdrawalModal.HandleSubmit | src/components/FastWithdrawalModal.js:34-59 | runs only when the browser lets the form submit (amount and address non-empty, lines 131 and 156); the new state and server call are those of `Submit`, and the phases stay consistent |
| FastWithdrawal.FastWithdrawalModal.HandleComplete | src/components/FastWithdrawalModal.js:82-97 | runs only when the browser lets the form submit (txid non-empty, line 270); the new state and server call are those of `Complete`, and the phases stay consistent |
| FastWithdrawal.FastWithdrawalModal.ResetState | src/components/FastWithdrawalModal.js:20-32 | every field back to its initial value |
| FastWithdrawal.FastWithdrawalModal.HandleStartNew | src/components/FastWithdrawalModal.js:99-101 | start-new is the reset, back on the request form (and so idempotent) |
| ChainSettings.SubViewChain | src/components/ChainSettingsModal.js:78-100 | the sub view's chain is the registry entry with that id (its display name and dependencies), running, with the fixed repository URL and the fetched directories; absent exactly when the registry is undefined, lacks the entry, or a directory call threw |
| ChainSettings.Switched | src/components/ChainSettingsModal.js:72-148 | a switch's press (`SwitchTwiceRestores`, `SubViewForcedRunning`, `MissingEntryKeepsView`) |
| ChainSettings.SwitchCaption | src/components/ChainSettingsModal.js:116-164 | "BitWindow" while the sub view is shown, the sub view's name otherwise (`CaptionNamesTarget`) |
| ChainSettings.SwitchersShown | src/components/ChainSettingsModal.js:63 | switches only in BitWindow's settings (the requires of `PressSwitch`) |
| ChainSettings.ResetOffered | src/components/ChainSettingsModal.js:242-263 | the reset button is absent for the two sub views (`SubViewForcedRunning`, `ClickReset`) |
| ChainSettings.SwitchTwiceRestores | src/components/ChainSettingsModal.js:72-148 | a press either changes nothing or shows the sub view, and pressing the same switch again gives the original chain back |
| ChainSettings.SubViewForcedRunning | src/components/ChainSettingsModal.js:72-148 | a press that changes the view shows the sub view's own chain, running, with its fixed URL and fetched directories, and offers no reset for it |
| ChainSettings.MissingEntryKeepsView | src/components/ChainSettingsModal.js:78-103 | without a registry, without the entry, or after a failed directory call, the view is unchanged |
| ChainSettings.CaptionNamesTarget | src/components/ChainSettingsModal.js:72-164 | a switch reads "BitWindow" exactly when pressing it returns to the original chain |
| ChainSettings.ChainSettingsModal.constructor | src/components/ChainSettingsModal.js:15-17 | the original and the shown chain are both the prop, and no dialog is open |
| ChainSettings.ChainSettingsModal.ChainPropChanged | src/components/ChainSettingsModal.js:19-22 | a new prop replaces the shown chain; the original stays fixed |
| ChainSettings.ChainSettingsModal.PressSwitch | src/components/ChainSettingsModal.js:72-148 | a press (offered only in BitWindow's settings) sets the shown chain as `Switched` says |
| ChainSettings.ChainSettingsModal.ClickReset | src/components/ChainSettingsModal.js:242-252 | the reset dialog opens only for a chain other than the sub views whose status allows a reset |
| ChainSettings.ChainSettingsModal.ConfirmReset | src/components/ChainSettingsModal.js:30-34 | confirming resets the shown chain's id, hides the dialog and closes, exactly when the card's status at that render lets the card pass `onReset` (Card.js 425-430); otherwise the call throws and nothing happens |
| ChainSettings.ChainSettingsModal.CancelReset | src/components/ChainSettingsModal.js:273 | closing the reset dialog hides it |
| UnreleasedCard.LastTwo | src/components/UnreleasedCard.js:20 | `slice(-2)`: the last two elements, or all of them when fewer |
| UnreleasedCard.Rest | src/components/UnreleasedCard.js:18 | the URL without its first GitHub prefix (`RemovePrefix` for URLs that start with it) |
| UnreleasedCard.LastSegmentsAreSuffix | src/components/UnreleasedCard.js:19-21 | the last two `/`-segments of a path, rejoined, are a suffix of the path |
| UnreleasedCard.LastSegmentsSeparators | src/components/UnreleasedCard.js:19-21 | the last two `/`-segments of a path, rejoined, split back into themselves, end in the path's last segment, and hold one `/` exactly when the path holds one |
| UnreleasedCard.LastSegments | src/components/UnreleasedCard.js:19-21 | `split('/').slice(-2).join('/')` on a path: a suffix of it (`endsWith`) that splits into the last (at most two) segments, has at most one `/` (one exactly when the path has one) and the same last segment |
| UnreleasedCard.DisplayUrl | src/components/UnreleasedCard.js:17-21 | the shorthand is a suffix of the URL after the GitHub prefix, splits into exactly the last (at most two) `/`-segments of that rest, so it holds at most one `/` (exactly one when the rest does) and ends in the rest's last segment |
| UnreleasedCard.RepoNameOnly | src/components/UnreleasedCard.js:24 | the repository name is the last `/`-segment of the URL's rest and contains no `/` |
| UnreleasedCard.TrailingSlashGivesEmptyName | src/components/UnreleasedCard.js:17-24 | a GitHub URL ending in `/` has an empty repository name |
| UnreleasedCard.OwnerAndRepo | src/components/UnreleasedCard.js:17-24 | `https://github.com/<owner>/<repo>` shows as `<owner>/<repo>`, and `<repo>` in the compact view |
| ThemeContext.Mounted | src/contexts/ThemeContext.js:15-24 | after mount, system mode is on exactly when `true` was saved; dark mode then follows the system, otherwise it is on exactly when the saved theme is `dark` |
| ThemeContext.SystemChanged | src/contexts/ThemeContext.js:28-43 | the listener's update (`ModesAreExclusive`, `OperationsKeepSynced`) |
| ThemeContext.ThemeToggled | src/contexts/ThemeContext.js:46-52 | `toggleTheme` (`ToggleThemeFlips`, `ToggleThemeTwice`, `ModesAreExclusive`, `OperationsKeepSynced`) |
| ThemeContext.SystemModeToggled | src/contexts/ThemeContext.js:55-69 | `toggleUseSystemTheme` (`ToggleUseSystemStores`, `SystemModeRoundTrip`, `OperationsKeepSynced`) |
| ThemeContext.MountedIsSynced | src/contexts/ThemeContext.js:15-24 | mounting leaves flags and storage in step |
| ThemeContext.OperationsKeepSynced | src/contexts/ThemeContext.js:28-68 | system changes and both toggles keep flags and storage in step |
| ThemeContext.ModesAreExclusive | src/contexts/ThemeContext.js:28-52 | the manual toggle does nothing in system mode; system changes do nothing outside it, and set dark mode inside it |
| ThemeContext.ToggleThemeFlips | src/contexts/ThemeContext.js:49-51 | outside system mode the toggle flips dark mode and stores `dark`/`light` to match |
| ThemeContext.ToggleThemeTwice | src/contexts/ThemeContext.js:46-52 | toggling twice restores both flags, and the whole state when storage already matched |
| ThemeContext.SystemModeRoundTrip | src/contexts/ThemeContext.js:55-68 | turning system mode on and off again restores the manual dark mode |
| ThemeContext.ToggleUseSystemStores | src/contexts/ThemeContext.js:55-68 | the flag flips and is stored as `true`/`false`; on takes the system's preference, off takes the stored theme |
| ThemeContext.ThemeProvider.constructor | src/contexts/ThemeContext.js:6-25 | the provider's state after mount |
| ThemeContext.ThemeProvider.OnSystemChange | src/contexts/ThemeContext.js:28-43 | the listener's update, keeping storage in step |
| ThemeContext.ThemeProvider.ToggleTheme | src/contexts/ThemeContext.js:46-52 | `toggleTheme`'s update, keeping storage in step |
| ThemeContext.ThemeProvider.ToggleUseSystemTheme | src/contexts/ThemeContext.js:55-69 | `toggleUseSystemTheme`'s update, keeping storage in step |
| SettingsSlice.QuotesIn | src/store/settingsSlice.js:53-59 | a payload offers a value exactly when it is an object whose `showQuotes` is a boolean |
| SettingsSlice.Reduce | src/store/settingsSlice.js:38-71 | the reducers (`ToggleTwice`, `LoadFulfilledGuarded`, `LoadRejectedKeepsQuotes`, `SaveFulfilledOnlyQuotes`, `LoadCycle`) |
| SettingsSlice.LoadOutcome | src/store/settingsSlice.js:4-15 | the load always fulfils; a failed read fulfils with `showQuotes: true` |
| SettingsSlice.SaveOutcome | src/store/settingsSlice.js:18-29 | the save fulfils exactly when the write succeeded, with the saved settings |
| SettingsSlice.ToggleTwice | src/store/settingsSlice.js:39-44 | toggling twice is the identity on the state |
| SettingsSlice.LoadFulfilledGuarded | src/store/settingsSlice.js:53-59 | a fulfilled load ends loading, keeps the error, and changes `showQuotes` only to a boolean the payload carries |
| SettingsSlice.LoadRejectedKeepsQuotes | src/store/settingsSlice.js:60-63 | a rejected load ends loading, records the message and keeps `showQuotes` |
| SettingsSlice.SaveFulfilledOnlyQuotes | src/store/settingsSlice.js:65-70 | a fulfilled save applies the same guard and touches neither `isLoading` nor `error` |
| SettingsSlice.LoadCycle | src/store/settingsSlice.js:4-63 | a whole load ends with loading off and no error whatever the main process answers; a failed read shows quotes |
| SettingsSlice.SettingsStore.constructor | src/store/settingsSlice.js:33-37 | the initial state: quotes shown, not loading, no error |
| SettingsSlice.SettingsStore.Dispatch | src/store/settingsSlice.js:38-71 | each action updates the draft as the reducer says; the toggle asks to save the new value |
| AboutModalSlice.Reduce | src/store/aboutModalSlice.js:8-15 | after an action the dialog is open exactly when the action opened it |
| AboutModalSlice.ActionsIdempotent | src/store/aboutModalSlice.js:5-14 | open and close are idempotent, and open then close gives the initial closed state |
| AboutModalSlice.ReduceAll | src/store/aboutModalSlice.js:8-15 | after a sequence of actions the dialog is open exactly when the last one opened it |
| AboutModalSlice.AboutModalState.constructor | src/store/aboutModalSlice.js:5-7 | the dialog starts closed |
| AboutModalSlice.AboutModalState.Dispatch | src/store/aboutModalSlice.js:9-14 | the reducers set `isOpen` as `Reduce` says |

## Left out

- Rendering is not modelled: JSX, CSS classes as strings, tooltip positions, icons and the button's hover state.
- Browser effects are not modelled: the clipboard copy and paste with their `copiedStates`, `window.open`, the `openChainSettings` event and the folder-opening calls. They change no state the model tracks.
- Timers and event subscriptions are not modelled. The poll's `setInterval`, the tooltip's 3-second timeout and the media-query listener's registration are steps that the model's methods perform when called.
- ChainCard.FormatFileSize: does not model the rounding to one decimal or the string formatting, because these are floating-point presentation. Sizes are exact reals.
- FastWithdrawal.TotalToPay: does not model IEEE addition or `toString`. `parseFloat` is abstracted to a number or NaN (an empty field reads as NaN), and a missing `server_fee_sats` (which would give NaN) is not a case.
- FastWithdrawal.Complete: an answer whose `message` exists but has no `info` stores `undefined`; the model stands for it with the empty confirmation.
- `handleOpenSettings` and the card's `fullChainData` copy are not modelled. The settings dialog is modelled from the chain it is given.
- The force-stop dialog's list of dependent display names is not modelled. Only the dialog's opening and its confirm/close are.
- React effect races are not modelled: stale closures over `blockCount` and `startTime`, and the ordering of asynchronous state setters. Each handler runs to completion on the state it was called with.
- The main process is not part of this model: downloading, process supervision, wallet derivation, the preload bridge, the settings store and the BitWindow HTTP client. Their answers are parameters, and `stop` with `force` is an intent whose effect is not modelled.
- FastWithdrawal.FastWithdrawalModal.HandleSubmit: requires the request form to be on screen, because its form is rendered only then, and a non-empty amount and address, because the browser does not submit a form with an empty `required` input. Likewise `HandleComplete` requires the payment form and a non-empty transaction id, `ChainSettingsModal.PressSwitch` requires BitWindow's settings, and `Card.HandleAction` requires a status in which the main button is enabled (a disabled button delivers no click).
