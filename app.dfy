/** The top-level screen choice of App.tsx: the splash screen while the splash timer runs
    or the state is loading, then sign-in without a profile, then plan setup without a
    plan, then the screen of the active view; the navigation bar is shown exactly on the
    view screens. */
module App {
  import opened Wrappers
  import opened Types

  datatype Screen =
    | SplashScreen
    | AuthScreen
    | SetupScreen
    | TodayScreen
    | CalendarScreen
    | ChatScreen
    | NutritionScreen
    | SettingsScreen

  predicate IsViewScreen(s: Screen) {
    s.TodayScreen? || s.CalendarScreen? || s.ChatScreen? || s.NutritionScreen? || s.SettingsScreen?
  }

  /** The screen of an active view; a value outside the five views falls back to today's. */
  function ViewScreen(activeView: string): (s: Screen)
    ensures IsViewScreen(s)
    ensures activeView !in {"calendar", "chat", "nutrition", "settings"} ==> s == TodayScreen
  {
    match activeView
    case "today" => TodayScreen
    case "calendar" => CalendarScreen
    case "chat" => ChatScreen
    case "nutrition" => NutritionScreen
    case "settings" => SettingsScreen
    case _ => TodayScreen
  }

  /** `renderContent`. */
  function RenderContent(showSplash: bool, isInitializing: bool, profile: Option<UserProfile>,
                         plan: Option<WorkoutPlan>, activeView: string): (s: Screen)
    ensures showSplash || isInitializing ==> s == SplashScreen
    ensures !showSplash && !isInitializing && profile.None? ==> s == AuthScreen
    ensures !showSplash && !isInitializing && profile.Some? && plan.None? ==> s == SetupScreen
    ensures !showSplash && !isInitializing && profile.Some? && plan.Some? ==> s == ViewScreen(activeView)
  {
    if showSplash || isInitializing then SplashScreen
    else if profile.None? then AuthScreen
    else if plan.None? then SetupScreen
    else ViewScreen(activeView)
  }

  /** `showNav`. */
  predicate ShowNav(showSplash: bool, isInitializing: bool, profile: Option<UserProfile>, plan: Option<WorkoutPlan>) {
    !showSplash && !isInitializing && profile.Some? && plan.Some?
  }

  /** The navigation bar is shown exactly when a view screen is rendered, whatever the
      active view. */
  lemma NavExactlyOnViewScreens(showSplash: bool, isInitializing: bool, profile: Option<UserProfile>,
                                plan: Option<WorkoutPlan>, activeView: string)
    ensures ShowNav(showSplash, isInitializing, profile, plan) <==>
      IsViewScreen(RenderContent(showSplash, isInitializing, profile, plan, activeView))
  {
  }

  /** The five view names select five different screens. */
  lemma ViewsDistinct()
    ensures ViewScreen("today") == TodayScreen && ViewScreen("calendar") == CalendarScreen
    ensures ViewScreen("chat") == ChatScreen && ViewScreen("nutrition") == NutritionScreen
    ensures ViewScreen("settings") == SettingsScreen
  {
  }
}
