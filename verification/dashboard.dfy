/** The dashboard page: its login guard, the saved theme and language
    preferences, the dark-mode class, the quick theme toggle and logout.

    `localStorage` is a map from keys to strings, the system colour-scheme
    preference is a boolean parameter, and `JSON.parse` is the partial
    `parse` (`None` when it throws). */
module Dashboard {
  import opened Js
  import ChatPage

  type Storage = map<string, string>

  function Get(st: Storage, key: string): Option<string> {
    if key in st then Some(st[key]) else None
  }

  /** The quick toggle's cycle: light to dark, dark to auto, anything else to
      light. */
  function Toggle(theme: string): (r: string)
    ensures r == "light" || r == "dark" || r == "auto"
    ensures theme != "light" && theme != "dark" ==> r == "light"
  {
    if theme == "light" then "dark" else if theme == "dark" then "auto" else "light"
  }

  predicate Known(theme: string) {
    theme == "light" || theme == "dark" || theme == "auto"
  }

  /** Each of the three themes comes back to itself after exactly three
      toggles and not before; any other stored value joins the cycle at
      light. */
  lemma ToggleCycle(theme: string)
    ensures Known(theme) ==> Toggle(Toggle(Toggle(theme))) == theme
    ensures Known(theme) ==> Toggle(theme) != theme && Toggle(Toggle(theme)) != theme
    ensures !Known(theme) ==> Toggle(theme) == "light"
  {
  }

  /** Whether the theme effect puts the `dark` class on the document root. */
  predicate DarkClass(theme: string, prefersDark: bool) {
    theme == "dark" || (theme == "auto" && prefersDark)
  }

  /** The class follows the system only in auto mode; dark and light force
      it, and any other stored value behaves as light. */
  lemma DarkClassCases(theme: string, prefersDark: bool)
    ensures theme == "dark" ==> DarkClass(theme, prefersDark)
    ensures theme == "auto" ==> (DarkClass(theme, prefersDark) <==> prefersDark)
    ensures theme != "dark" && theme != "auto" ==> !DarkClass(theme, prefersDark)
  {
  }

  /** The colour-scheme listener, registered only in auto mode, sets the class
      to the new system preference; in other modes nothing listens. */
  function SystemChange(theme: string, dark: bool, matches: bool): (r: bool)
    ensures theme != "auto" ==> r == dark
  {
    if theme == "auto" then matches else dark
  }

  /** Once the theme effect has run, the class stays what the theme effect
      would decide for the current system preference, however often that
      preference changes. */
  lemma ListenerKeepsClassCurrent(theme: string, dark: bool, before: bool, after: bool)
    requires dark == DarkClass(theme, before)
    ensures SystemChange(theme, dark, after) == DarkClass(theme, after)
  {
  }

  /** What the mount effect found: a redirect to the login page, a user
      document that does not parse (the effect throws), or the parsed user
      (`None` for a stored `null`) with the saved preferences. */
  datatype Found = Redirect(to: string) | Unparsable | Loaded(user: Option<ChatPage.Profile>, theme: string, language: string)

  /** The mount effect. */
  function Mount(st: Storage, parse: string -> Option<Option<ChatPage.Profile>>): (r: Found)
    ensures r.Redirect? <==> !TruthyOpt(Get(st, "isLoggedIn")) || !TruthyOpt(Get(st, "user"))
    ensures r.Redirect? ==> r.to == "/login"
    ensures !r.Redirect? ==> "user" in st && (r.Unparsable? <==> parse(st["user"]).None?)
    ensures r.Loaded? ==> r.user == parse(st["user"]).value
    ensures r.Loaded? ==> r.theme != "" && r.language != ""
    ensures r.Loaded? && "theme" !in st ==> r.theme == "auto"
    ensures r.Loaded? && "language" !in st ==> r.language == "en"
  {
    if !TruthyOpt(Get(st, "isLoggedIn")) || !TruthyOpt(Get(st, "user")) then Redirect("/login")
    else
      match parse(st["user"])
      case None => Unparsable
      case Some(u) => Loaded(u, OptOr(Get(st, "theme"), "auto"), OptOr(Get(st, "language"), "en"))
  }

  /** The page after the first commit: where the browser goes, the
      `dark` class, the stored items, and the theme and language state. */
  datatype Visit = Visit(navigated: Option<string>, dark: bool, storage: Storage, theme: string, language: string)

  /** The theme and language effects: each writes its state back to storage,
      and the theme effect sets the class. */
  function Persist(st: Storage, theme: string, language: string, prefersDark: bool): (r: Visit)
    ensures r.storage.Keys == st.Keys + {"theme", "language"}
    ensures Get(r.storage, "theme") == Some(theme) && Get(r.storage, "language") == Some(language)
    ensures forall k :: k in st && k != "theme" && k != "language" ==> k in r.storage && r.storage[k] == st[k]
    ensures r.dark == DarkClass(theme, prefersDark)
  {
    Visit(None, DarkClass(theme, prefersDark), st["theme" := theme]["language" := language], theme, language)
  }

  /** Opening the dashboard. The first commit runs the mount effect and then
      the theme and language effects with the initial `auto` and `en`; when
      the mount effect loaded preferences, the re-render runs the theme and
      language effects again with them. When the user document does not
      parse the mount effect throws and no re-render brings in the saved
      preferences. The theme and language effects of that commit are taken to
      still run, as in a React that runs each effect on its own; React 18 runs
      one component's effects together and skips those after the throw. */
  function Open(st: Storage, parse: string -> Option<Option<ChatPage.Profile>>, prefersDark: bool): (r: Visit)
  {
    match Mount(st, parse)
    case Redirect(to) =>
      var v := Persist(st, "auto", "en", prefersDark);
      v.(navigated := Some(to))
    case Unparsable => Persist(st, "auto", "en", prefersDark)
    case Loaded(_, theme, language) =>
      var first := Persist(st, "auto", "en", prefersDark);
      Persist(first.storage, theme, language, prefersDark)
  }

  /** A signed-in visit shows the saved preferences, or `auto` and `en` when
      none are saved (or they are empty), and writes them back unchanged;
      nothing else in storage changes. */
  lemma OpenRestoresPreferences(st: Storage, parse: string -> Option<Option<ChatPage.Profile>>, prefersDark: bool)
    requires Mount(st, parse).Loaded?
    ensures var v := Open(st, parse, prefersDark);
      && v.navigated.None?
      && v.theme == OptOr(Get(st, "theme"), "auto")
      && v.language == OptOr(Get(st, "language"), "en")
      && Get(v.storage, "theme") == Some(v.theme)
      && Get(v.storage, "language") == Some(v.language)
      && v.dark == DarkClass(v.theme, prefersDark)
      && (forall k :: k in st && k != "theme" && k != "language" ==> k in v.storage && v.storage[k] == st[k])
  {
    var first := Persist(st, "auto", "en", prefersDark);
    assert forall k :: k in st && k != "theme" && k != "language" ==> k in first.storage && first.storage[k] == st[k];
  }

  /** Opening the dashboard twice in the same browser shows the same
      preferences the second time. */
  lemma OpenTwiceSamePreferences(st: Storage, parse: string -> Option<Option<ChatPage.Profile>>, prefersDark: bool, later: bool)
    requires Mount(st, parse).Loaded?
    ensures var v := Open(st, parse, prefersDark);
      var w := Open(v.storage, parse, later);
      w.theme == v.theme && w.language == v.language
  {
    OpenRestoresPreferences(st, parse, prefersDark);
    var v := Open(st, parse, prefersDark);
    assert Get(v.storage, "isLoggedIn") == Get(st, "isLoggedIn");
    assert Get(v.storage, "user") == Get(st, "user");
    OpenRestoresPreferences(v.storage, parse, later);
  }

  /** A visit without a login flag or user item is sent to the login page,
      and the first commit's theme and language effects have already
      overwritten the saved preferences with `auto` and `en`. */
  lemma SignedOutVisitResetsPreferences(st: Storage, parse: string -> Option<Option<ChatPage.Profile>>, prefersDark: bool)
    requires !TruthyOpt(Get(st, "isLoggedIn")) || !TruthyOpt(Get(st, "user"))
    ensures var v := Open(st, parse, prefersDark);
      v.navigated == Some("/login") && Get(v.storage, "theme") == Some("auto") && Get(v.storage, "language") == Some("en")
  {
  }

  /** `handleLogout`: drops the two login items and goes to the login page. */
  function Logout(st: Storage): (r: (Storage, string))
    ensures "isLoggedIn" !in r.0 && "user" !in r.0
    ensures forall k :: k in st && k != "isLoggedIn" && k != "user" ==> k in r.0 && r.0[k] == st[k]
    ensures r.0.Keys <= st.Keys
    ensures r.1 == "/login"
  {
    (st - {"isLoggedIn", "user"}, "/login")
  }

  /** After logging out, opening the dashboard again redirects to the login
      page. */
  lemma LogoutThenOpenRedirects(st: Storage, parse: string -> Option<Option<ChatPage.Profile>>, prefersDark: bool)
    ensures Mount(Logout(st).0, parse) == Redirect("/login")
    ensures Open(Logout(st).0, parse, prefersDark).navigated == Some("/login")
  {
  }
}
