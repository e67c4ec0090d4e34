/**
 * The UI settings slice of the Redux store: whether quotes are shown, whether settings are
 * loading, and the last load error; with the load and save thunks that talk to the settings
 * store in the main process.
 */
module SettingsSlice {
  import opened Wrappers

  /** `payload.showQuotes` as the reducers inspect it: missing, a boolean, or any other value. */
  datatype Field = Missing | BoolField(b: bool) | OtherField

  /** An action's payload: `null`/`undefined`, or a settings object. */
  datatype Payload = NoPayload | SettingsObject(showQuotes: Field)

  /** The slice's state. */
  datatype Settings = Settings(showQuotes: bool, isLoading: bool, error: Option<string>)

  /** The actions the slice handles (save's pending and rejected reach it but change nothing). */
  datatype Action =
    | ToggleShowQuotes
    | LoadPending
    | LoadFulfilled(payload: Payload)
    | LoadRejected(message: Option<string>)
    | SavePending
    | SaveFulfilled(payload: Payload)
    | SaveRejected

  function InitialSettings(): Settings {
    Settings(true, false, None)
  }

  /** The value a payload carries for `showQuotes`, when it is a boolean. */
  function QuotesIn(p: Payload): (v: Option<bool>)
    ensures v.Some? <==> p.SettingsObject? && p.showQuotes.BoolField?
    ensures v.Some? ==> p.showQuotes == BoolField(v.value)
  {
    if p.SettingsObject? && p.showQuotes.BoolField? then Some(p.showQuotes.b) else None
  }

  /** The slice's reducer. */
  function Reduce(s: Settings, a: Action): Settings {
    match a
    case ToggleShowQuotes => s.(showQuotes := !s.showQuotes)
    case LoadPending => s.(isLoading := true, error := None)
    case LoadFulfilled(p) => s.(isLoading := false, showQuotes := QuotesIn(p).GetOr(s.showQuotes))
    case LoadRejected(m) => s.(isLoading := false, error := m)
    case SavePending => s
    case SaveFulfilled(p) => s.(showQuotes := QuotesIn(p).GetOr(s.showQuotes))
    case SaveRejected => s
  }

  /** What `getUISettings` gives the load thunk: its answer, or a thrown error. */
  datatype LoadAnswer = Loaded(payload: Payload) | LoadThrew

  /** The action the load thunk finishes with: it catches every error and falls back to showing
    * quotes, so it always fulfils. */
  function LoadOutcome(answer: LoadAnswer): (a: Action)
    ensures a.LoadFulfilled?
    ensures answer.LoadThrew? ==> QuotesIn(a.payload) == Some(true)
  {
    match answer
    case Loaded(p) => LoadFulfilled(p)
    case LoadThrew => LoadFulfilled(SettingsObject(BoolField(true)))
  }

  /** The action the save thunk finishes with: the saved settings, or a rejection. */
  function SaveOutcome(settings: Payload, saved: bool): (a: Action)
    ensures a.SaveFulfilled? <==> saved
    ensures saved ==> a.payload == settings
  {
    if saved then SaveFulfilled(settings) else SaveRejected
  }

  /** Toggling twice gives the state back. */
  lemma ToggleTwice(s: Settings)
    ensures Reduce(Reduce(s, ToggleShowQuotes), ToggleShowQuotes) == s
  {
  }

  /** A fulfilled load ends loading and changes `showQuotes` only to a boolean it carries; the
    * error is left as it was. */
  lemma LoadFulfilledGuarded(s: Settings, p: Payload)
    ensures var t := Reduce(s, LoadFulfilled(p));
      && !t.isLoading && t.error == s.error
      && (t.showQuotes != s.showQuotes ==> p.SettingsObject? && p.showQuotes == BoolField(t.showQuotes))
      && (!(p.SettingsObject? && p.showQuotes.BoolField?) ==> t.showQuotes == s.showQuotes)
  {
  }

  /** A rejected load ends loading, records the message and keeps `showQuotes`. */
  lemma LoadRejectedKeepsQuotes(s: Settings, m: Option<string>)
    ensures Reduce(s, LoadRejected(m)) == Settings(s.showQuotes, false, m)
  {
  }

  /** A fulfilled save touches neither `isLoading` nor `error`. */
  lemma SaveFulfilledOnlyQuotes(s: Settings, p: Payload)
    ensures var t := Reduce(s, SaveFulfilled(p));
      t.isLoading == s.isLoading && t.error == s.error
      && t.showQuotes == (if p.SettingsObject? && p.showQuotes.BoolField? then p.showQuotes.b else s.showQuotes)
  {
  }

  /** A complete load, whatever the main process answers, ends with loading off and no error; a
    * failed read shows quotes. */
  lemma {:induction false} LoadCycle(s: Settings, answer: LoadAnswer)
    ensures var t := Reduce(Reduce(s, LoadPending), LoadOutcome(answer));
      !t.isLoading && t.error.None?
      && (answer.LoadThrew? ==> t.showQuotes)
  {
    var a := LoadOutcome(answer);
    assert a.LoadFulfilled?;
  }

  /** The slice as the store holds it; reducers update the draft in place. */
  class SettingsStore {
    var showQuotes: bool
    var isLoading: bool
    var error: Option<string>

    function State(): Settings
      reads this
    {
      Settings(showQuotes, isLoading, error)
    }

    constructor ()
      ensures State() == InitialSettings()
    {
      showQuotes, isLoading, error := true, false, None;
    }

    /** Runs the reducer for `a`. `saveRequest` is the `showQuotes` value the toggle asks the
      * main process to save (the call's own failure is only logged). */
    method Dispatch(a: Action) returns (saveRequest: Option<bool>)
      modifies this
      ensures State() == Reduce(old(State()), a)
      ensures saveRequest == if a.ToggleShowQuotes? then Some(showQuotes) else None
    {
      saveRequest := None;
      match a
      case ToggleShowQuotes =>
        showQuotes := !showQuotes;
        saveRequest := Some(showQuotes);
      case LoadPending =>
        isLoading := true;
        error := None;
      case LoadFulfilled(p) =>
        isLoading := false;
        if p.SettingsObject? && p.showQuotes.BoolField? {
          showQuotes := p.showQuotes.b;
        }
      case LoadRejected(m) =>
        isLoading := false;
        error := m;
      case SavePending =>
      case SaveFulfilled(p) =>
        if p.SettingsObject? && p.showQuotes.BoolField? {
          showQuotes := p.showQuotes.b;
        }
      case SaveRejected =>
    }
  }
}
