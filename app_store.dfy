/** The persisted application settings of src/store/modules/use-app-store.ts. */
module AppSettings {

  datatype Theme = Light | Dark | Auto

  datatype Language = ZhCN | EnUS

  datatype AppState = AppState(theme: Theme, language: Language, appTitle: string, isFirstVisit: bool)

  /** `initialState`. */
  const InitialState := AppState(Light, ZhCN, "React Mobile App", true)

  class AppStore {
    var theme: Theme
    var language: Language
    var appTitle: string
    var isFirstVisit: bool

    function State(): AppState
      reads this
    {
      AppState(theme, language, appTitle, isFirstVisit)
    }

    constructor ()
      ensures State() == InitialState
    {
      theme := Light;
      language := ZhCN;
      appTitle := "React Mobile App";
      isFirstVisit := true;
    }

    method SetTheme(t: Theme)
      modifies this
      ensures State() == old(State()).(theme := t)
    {
      theme := t;
    }

    method SetLanguage(l: Language)
      modifies this
      ensures State() == old(State()).(language := l)
    {
      language := l;
    }

    method SetAppTitle(title: string)
      modifies this
      ensures State() == old(State()).(appTitle := title)
    {
      appTitle := title;
    }

    /** Clears the first-visit flag; a second call changes nothing. */
    method MarkVisited()
      modifies this
      ensures State() == old(State()).(isFirstVisit := false)
      ensures !old(isFirstVisit) ==> State() == old(State())
    {
      isFirstVisit := false;
    }

    method Reset()
      modifies this
      ensures State() == InitialState
    {
      theme, language, appTitle, isFirstVisit := InitialState.theme, InitialState.language, InitialState.appTitle, InitialState.isFirstVisit;
    }
  }

  /** Settings changes followed by `reset` end in the initial state. */
  method ChangeThenReset(s: AppStore, t: Theme, l: Language, title: string) returns (after: AppState)
    modifies s
    ensures after == InitialState
  {
    s.SetTheme(t);
    s.SetLanguage(l);
    s.SetAppTitle(title);
    s.MarkVisited();
    s.Reset();
    after := s.State();
  }
}
