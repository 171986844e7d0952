/** src/screens/Navigator/Navigator.tsx: the root stack registers one screen,
    chosen from the login state and whether the new user still has to set up
    a profile. */
module Navigator {

  datatype RootScreen = Auth | Profile | TabNavigator

  /** The screens registered under the root stack navigator. */
  function RegisteredScreens(isLoggedIn: bool, needsProfileSetup: bool): (screens: seq<RootScreen>)
    ensures |screens| == 1
    ensures screens[0] == Auth <==> !isLoggedIn
    ensures screens[0] == Profile <==> isLoggedIn && needsProfileSetup
    ensures screens[0] == TabNavigator <==> isLoggedIn && !needsProfileSetup
  {
    if !isLoggedIn then [Auth]
    else if needsProfileSetup then [Profile]
    else [TabNavigator]
  }

  /** A logged-out user sees the Auth screen whatever the setup flag says. */
  lemma LoggedOutIgnoresSetupFlag(needsProfileSetup: bool)
    ensures RegisteredScreens(false, needsProfileSetup) == RegisteredScreens(false, !needsProfileSetup) == [Auth]
  {
  }
}
