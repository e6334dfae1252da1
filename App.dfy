/** The page switch of the desktop client (client/what-to-wear-client/src/App.tsx): one
    `currentPage` value, changed by the callbacks handed to the page being shown. The
    stored token read at mount is a parameter. */
module App {
  import opened Wrappers

  datatype Page = LoginPage | RegisterPage | MainPage

  /** The callbacks the three page components can invoke. */
  datatype Event = LoginSuccess | Logout | SwitchToRegister | SwitchToLogin | RegisterSuccess

  /** The component `renderCurrentPage` returns. */
  datatype Component = LoginComponent | RegisterComponent | MainComponent

  function PageName(p: Page): string {
    match p
    case LoginPage => "login"
    case RegisterPage => "register"
    case MainPage => "main"
  }

  /** The switch of `renderCurrentPage` over the page name; its default is the login page. */
  function RenderName(name: string): (c: Component)
    ensures name == "register" ==> c == RegisterComponent
    ensures name == "main" ==> c == MainComponent
    ensures name != "register" && name != "main" ==> c == LoginComponent
  {
    match name
    case "login" => LoginComponent
    case "register" => RegisterComponent
    case "main" => MainComponent
    case _ => LoginComponent
  }

  function Render(p: Page): Component {
    RenderName(PageName(p))
  }

  /** Each page renders its own component, and distinct pages render distinct components. */
  lemma RenderIsOneToOne(p: Page, q: Page)
    ensures Render(LoginPage) == LoginComponent
    ensures Render(RegisterPage) == RegisterComponent
    ensures Render(MainPage) == MainComponent
    ensures Render(p) == Render(q) ==> p == q
  {
  }

  /** Which callbacks the rendered component receives. */
  predicate Enabled(p: Page, e: Event) {
    match Render(p)
    case LoginComponent => e == SwitchToRegister || e == LoginSuccess
    case RegisterComponent => e == SwitchToLogin || e == RegisterSuccess
    case MainComponent => e == Logout
  }

  /** The page each handler sets; handlers do not look at the current page. */
  function Target(e: Event): (p: Page)
    ensures p == MainPage <==> e == LoginSuccess
    ensures p == RegisterPage <==> e == SwitchToRegister
  {
    match e
    case LoginSuccess => MainPage
    case Logout => LoginPage
    case SwitchToRegister => RegisterPage
    case SwitchToLogin => LoginPage
    case RegisterSuccess => LoginPage
  }

  /** From the register page no callback leads straight to the main page: the only
      callbacks it receives lead to the login page. */
  lemma NoRegisterToMain(e: Event)
    requires Enabled(RegisterPage, e)
    ensures Target(e) == LoginPage
  {
  }

  /** The main page is reached only by a successful login. */
  lemma MainOnlyByLogin(p: Page, e: Event)
    requires Enabled(p, e) && Target(e) == MainPage
    ensures p == LoginPage && e == LoginSuccess
  {
  }

  /** The page after mount: the main page when a non-empty token is stored. */
  function AfterMount(p: Page, token: Option<string>): (q: Page)
    ensures token.Some? && token.value != "" ==> q == MainPage
    ensures !(token.Some? && token.value != "") ==> q == p
  {
    if token.Some? && token.value != "" then MainPage else p
  }

  class AppState {
    var currentPage: Page

    constructor ()
      ensures currentPage == LoginPage
    {
      currentPage := LoginPage;
    }

    /** The mount effect. */
    method Mount(token: Option<string>)
      modifies this
      ensures currentPage == AfterMount(old(currentPage), token)
    {
      if token.Some? && token.value != "" {
        currentPage := MainPage;
      }
    }

    method HandleLoginSuccess()
      modifies this
      ensures currentPage == MainPage
    {
      currentPage := MainPage;
    }

    method HandleLogout()
      modifies this
      ensures currentPage == LoginPage
    {
      currentPage := LoginPage;
    }

    method HandleSwitchToRegister()
      modifies this
      ensures currentPage == RegisterPage
    {
      currentPage := RegisterPage;
    }

    method HandleSwitchToLogin()
      modifies this
      ensures currentPage == LoginPage
    {
      currentPage := LoginPage;
    }

    method HandleRegisterSuccess()
      modifies this
      ensures currentPage == LoginPage
    {
      currentPage := LoginPage;
    }

    /** Dispatches a callback of the rendered component to its handler. */
    method Handle(e: Event)
      modifies this
      ensures currentPage == Target(e)
    {
      match e
      case LoginSuccess => HandleLoginSuccess();
      case Logout => HandleLogout();
      case SwitchToRegister => HandleSwitchToRegister();
      case SwitchToLogin => HandleSwitchToLogin();
      case RegisterSuccess => HandleRegisterSuccess();
    }
  }

  /** The page after a run of callbacks; a callback the rendered page does not receive
      cannot fire and changes nothing. */
  function Run(p: Page, events: seq<Event>): (q: Page)
    decreases |events|
  {
    if events == [] then p
    else if Enabled(p, events[0]) then Run(Target(events[0]), events[1..])
    else Run(p, events[1..])
  }

  /** From any page but the main page, every run that ends on the main page contains a
      successful login. */
  lemma {:induction false} MainNeedsLogin(p: Page, events: seq<Event>)
    requires p != MainPage
    requires Run(p, events) == MainPage
    ensures exists i :: 0 <= i < |events| && events[i] == LoginSuccess
    decreases |events|
  {
    if events != [] {
      var next := if Enabled(p, events[0]) then Target(events[0]) else p;
      if events[0] != LoginSuccess {
        assert next != MainPage;
        MainNeedsLogin(next, events[1..]);
        var i :| 0 <= i < |events[1..]| && events[1..][i] == LoginSuccess;
        assert events[i + 1] == LoginSuccess;
      }
    }
  }
}
