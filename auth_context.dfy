/** src/contexts/AuthContext.tsx: the login state of the app and its copy in
    AsyncStorage.

    `AuthProvider` holds the React state (`isLoggedIn`, `user`, `isLoading`,
    `provider`) and the AsyncStorage key-value store as a map. Supabase Auth
    and the social-login SDKs are replaced by the outcomes they report. */
module AuthContext {
  import opened Wrappers
  import opened Types

  const AUTH_TOKEN_KEY: string := "authToken"
  const USER_KEY: string := "user"
  const PROVIDER_KEY: string := "provider"
  const DEFAULT_PROVIDER: string := "google"

  /** A stored value: plain text, or the JSON text of a `UserProfile`.
      Parsing the JSON of a profile gives the profile back. */
  datatype StoredItem = Text(text: string) | UserJson(profile: UserProfile)

  /** A Supabase Auth session. */
  datatype Session = Session(access_token: string, user: SupabaseUser)

  /** `convertSupabaseUserToProfile`. */
  function ConvertSupabaseUserToProfile(session: Session): (p: UserProfile)
    ensures p.id == session.user.id && p.email == session.user.email
    ensures p.name == Or(session.user.user_metadata.full_name, session.user.user_metadata.name)
    ensures Truthy(session.user.user_metadata.full_name) ==> p.name == session.user.user_metadata.full_name
    ensures !Truthy(session.user.user_metadata.full_name) ==> p.name == session.user.user_metadata.name
    ensures p.nickname == session.user.user_metadata.name
    ensures Truthy(session.user.user_metadata.avatar_url) ==> p.profileImage == session.user.user_metadata.avatar_url
    ensures !Truthy(session.user.user_metadata.avatar_url) ==> p.profileImage == session.user.user_metadata.picture
    ensures p.provider == SessionProvider(session) && p.provider != ""
    ensures p.bio == None
    ensures p.rawProfile.id == StringId(session.user.id) && p.rawProfile.email == session.user.email
    ensures p.rawProfile.name == session.user.user_metadata.name
    ensures p.rawProfile.picture == session.user.user_metadata.picture
    ensures p.rawProfile.verified_email == session.user.user_metadata.email_verified
  {
    var meta := session.user.user_metadata;
    UserProfile(
      session.user.id,
      Or(meta.full_name, meta.name),
      session.user.email,
      SessionProvider(session),
      Or(meta.avatar_url, meta.picture),
      meta.name,
      None,
      RawProfile(StringId(session.user.id), session.user.email, meta.name, meta.picture,
                 meta.email_verified, None, None, None))
  }

  /** `session.user.app_metadata.provider || 'google'`. */
  function SessionProvider(session: Session): (p: string)
    ensures Truthy(session.user.app_metadata.provider) ==> p == session.user.app_metadata.provider.value
    ensures !Truthy(session.user.app_metadata.provider) ==> p == DEFAULT_PROVIDER
  {
    OrElse(session.user.app_metadata.provider, DEFAULT_PROVIDER)
  }

  // ---------------------------------------------------------------------------
  // The stored login

  predicate IsAuthKey(key: string) {
    key == AUTH_TOKEN_KEY || key == USER_KEY || key == PROVIDER_KEY
  }

  /** `getItem(key)` for a key that holds plain text; anything else reads as missing. */
  function TextAt(storage: map<string, StoredItem>, key: string): (r: Option<string>)
    ensures r.Some? <==> key in storage && storage[key].Text?
    ensures r.Some? ==> r.value == storage[key].text
  {
    if key in storage && storage[key].Text? then Some(storage[key].text) else None
  }

  /** The storage after the three `setItem` calls of a login. */
  function WithLogin(storage: map<string, StoredItem>, token: string, user: UserProfile, provider: string)
    : (r: map<string, StoredItem>)
    ensures AUTH_TOKEN_KEY in r && USER_KEY in r && PROVIDER_KEY in r
    ensures r[AUTH_TOKEN_KEY] == Text(token) && r[USER_KEY] == UserJson(user) && r[PROVIDER_KEY] == Text(provider)
    ensures forall k :: !IsAuthKey(k) ==> (k in r <==> k in storage)
    ensures forall k :: !IsAuthKey(k) && k in r ==> r[k] == storage[k]
  {
    storage[AUTH_TOKEN_KEY := Text(token)][USER_KEY := UserJson(user)][PROVIDER_KEY := Text(provider)]
  }

  /** The storage after the three `removeItem` calls of a logout. */
  function WithoutLogin(storage: map<string, StoredItem>): (r: map<string, StoredItem>)
    ensures forall k :: k in r <==> k in storage && !IsAuthKey(k)
    ensures forall k :: k in r ==> r[k] == storage[k]
  {
    storage - {AUTH_TOKEN_KEY, USER_KEY, PROVIDER_KEY}
  }

  /** The login `checkAuthStatus` restores when there is no Supabase session. */
  datatype StoredLogin = StoredLogin(user: UserProfile, provider: string)

  /** `authToken && storedUser`, then `JSON.parse(storedUser)` and `storedProvider || ''`.
      A stored user that is not the JSON of a profile makes the parse throw,
      which the handler treats like a missing login. */
  function RestoredLogin(storage: map<string, StoredItem>): (r: Option<StoredLogin>)
    ensures r.Some? <==> Truthy(TextAt(storage, AUTH_TOKEN_KEY)) && USER_KEY in storage && storage[USER_KEY].UserJson?
    ensures r.Some? ==> r.value.user == storage[USER_KEY].profile
    ensures r.Some? ==> r.value.provider == OrElse(TextAt(storage, PROVIDER_KEY), "")
  {
    if Truthy(TextAt(storage, AUTH_TOKEN_KEY)) && USER_KEY in storage && storage[USER_KEY].UserJson? then
      Some(StoredLogin(storage[USER_KEY].profile, OrElse(TextAt(storage, PROVIDER_KEY), "")))
    else
      None
  }

  /** What a login with a non-empty token stores is what the next start restores. */
  lemma LoginIsRestored(storage: map<string, StoredItem>, token: string, user: UserProfile, provider: string)
    requires token != ""
    ensures RestoredLogin(WithLogin(storage, token, user, provider)) == Some(StoredLogin(user, provider))
  {
  }

  /** After a logout nothing is restored. */
  lemma LogoutIsNotRestored(storage: map<string, StoredItem>)
    ensures RestoredLogin(WithoutLogin(storage)) == None
  {
    assert AUTH_TOKEN_KEY !in WithoutLogin(storage);
  }

  // ---------------------------------------------------------------------------
  // Logout

  /** The SDK sign-out calls `logout` awaits, in order. */
  datatype SdkCall = SupabaseSignOut | KakaoLogout | NaverLogout | GoogleSignOut

  /** The `switch (provider)` of `logout`. */
  function SignOutCalls(provider: string): (calls: seq<SdkCall>)
    ensures provider == "kakao" ==> calls == [SupabaseSignOut, KakaoLogout]
    ensures provider == "naver" ==> calls == [NaverLogout]
    ensures provider == "google" ==> calls == [SupabaseSignOut, GoogleSignOut]
    ensures provider !in {"kakao", "naver", "google"} ==> calls == []
  {
    if provider == "kakao" then [SupabaseSignOut, KakaoLogout]
    else if provider == "naver" then [NaverLogout]
    else if provider == "google" then [SupabaseSignOut, GoogleSignOut]
    else []
  }

  /** The calls made when the call at index `failsAt` (if any) throws. */
  function AttemptedCalls(calls: seq<SdkCall>, failsAt: Option<nat>): (r: seq<SdkCall>)
    ensures |r| <= |calls| && r == calls[..|r|]
    ensures failsAt.Some? && failsAt.value < |calls| ==> |r| == failsAt.value + 1
    ensures !(failsAt.Some? && failsAt.value < |calls|) ==> r == calls
  {
    if failsAt.Some? && failsAt.value < |calls| then calls[..failsAt.value + 1] else calls
  }

  // ---------------------------------------------------------------------------
  // The provider

  datatype SessionResult = GotSession(session: Session) | NoSession | SessionError

  datatype AuthEvent = SignedIn | OtherEvent

  class AuthProvider {
    var isLoggedIn: bool
    var user: Option<UserProfile>
    var isLoading: bool
    var provider: string
    var storage: map<string, StoredItem>

    /** The state agrees with itself and with storage: a logged-in state has a
        user, whose profile and a token are stored. The app writes plain
        text under the token and provider keys. */
    ghost predicate Valid()
      reads this
    {
      (isLoggedIn <==> user.Some?) &&
      (AUTH_TOKEN_KEY in storage ==> storage[AUTH_TOKEN_KEY].Text?) &&
      (PROVIDER_KEY in storage ==> storage[PROVIDER_KEY].Text?) &&
      (isLoggedIn ==> AUTH_TOKEN_KEY in storage && USER_KEY in storage && storage[USER_KEY] == UserJson(user.value))
    }

    constructor (storage: map<string, StoredItem>)
      requires AUTH_TOKEN_KEY in storage ==> storage[AUTH_TOKEN_KEY].Text?
      requires PROVIDER_KEY in storage ==> storage[PROVIDER_KEY].Text?
      ensures Valid()
      ensures !isLoggedIn && user == None && isLoading && provider == ""
      ensures this.storage == storage
    {
      isLoggedIn := false;
      user := None;
      isLoading := true;
      provider := "";
      this.storage := storage;
    }

    /** `login(token, userData, provider)`. */
    method Login(token: string, userData: UserProfile, p: string)
      requires Valid()
      modifies this
      ensures Valid()
      ensures isLoggedIn && user == Some(userData) && provider == p
      ensures storage == WithLogin(old(storage), token, userData, p)
      ensures isLoading == old(isLoading)
    {
      storage := storage[AUTH_TOKEN_KEY := Text(token)];
      storage := storage[USER_KEY := UserJson(userData)];
      storage := storage[PROVIDER_KEY := Text(p)];
      isLoggedIn := true;
      user := Some(userData);
      provider := p;
    }

    /** `logout`; the SDK call at index `failsAt` of `SignOutCalls(provider)`
        throws, if any. Both the normal path and the error path end logged
        out with the three keys removed. */
    method Logout(failsAt: Option<nat>) returns (calls: seq<SdkCall>)
      requires Valid()
      modifies this
      ensures Valid()
      ensures calls == AttemptedCalls(SignOutCalls(old(provider)), failsAt)
      ensures !isLoggedIn && user == None && provider == ""
      ensures storage == WithoutLogin(old(storage))
      ensures isLoading == old(isLoading)
    {
      var planned := SignOutCalls(provider);
      calls := AttemptedCalls(planned, failsAt);
      if !(failsAt.Some? && failsAt.value < |planned|) {
        RemoveLogin();
        isLoggedIn := false;
        user := None;
        provider := "";
      } else {
        // the catch block resets the state first, then clears storage
        isLoggedIn := false;
        user := None;
        provider := "";
        RemoveLogin();
      }
    }

    /** The three `removeItem` calls of `logout`. */
    method RemoveLogin()
      modifies this`storage
      ensures storage == WithoutLogin(old(storage))
    {
      storage := storage - {AUTH_TOKEN_KEY};
      storage := storage - {USER_KEY};
      storage := storage - {PROVIDER_KEY};
      assert storage == old(storage) - {AUTH_TOKEN_KEY, USER_KEY, PROVIDER_KEY};
    }

    /** `checkAuthStatus` for the outcome of `getSession`. */
    method CheckAuthStatus(result: SessionResult)
      requires Valid()
      modifies this
      ensures Valid()
      ensures !isLoading
      ensures result.GotSession? ==>
        var profile := ConvertSupabaseUserToProfile(result.session);
        isLoggedIn && user == Some(profile) && provider == SessionProvider(result.session) &&
        storage == WithLogin(old(storage), result.session.access_token, profile, SessionProvider(result.session))
      ensures result.NoSession? ==> storage == old(storage)
      ensures result.NoSession? && RestoredLogin(old(storage)).Some? ==>
        isLoggedIn && user == Some(RestoredLogin(old(storage)).value.user) &&
        provider == RestoredLogin(old(storage)).value.provider
      ensures result.NoSession? && RestoredLogin(old(storage)).None? ==>
        !isLoggedIn && user == None && provider == ""
      ensures result.SessionError? ==> storage == old(storage) && !isLoggedIn && user == None && provider == ""
    {
      match result {
        case GotSession(session) =>
          var userData := ConvertSupabaseUserToProfile(session);
          isLoggedIn := true;
          user := Some(userData);
          provider := SessionProvider(session);
          storage := storage[AUTH_TOKEN_KEY := Text(session.access_token)];
          storage := storage[USER_KEY := UserJson(userData)];
          storage := storage[PROVIDER_KEY := Text(SessionProvider(session))];
        case NoSession =>
          var restored := RestoredLogin(storage);
          if restored.Some? {
            isLoggedIn := true;
            user := Some(restored.value.user);
            provider := restored.value.provider;
          } else {
            isLoggedIn := false;
            user := None;
            provider := "";
          }
        case SessionError =>
          isLoggedIn := false;
          user := None;
          provider := "";
      }
      isLoading := false;
    }

    /** The `onAuthStateChange` listener. A `SIGNED_IN` event with a session logs
        in with the converted profile and the session's provider; every other
        event is ignored. */
    method OnAuthStateChange(event: AuthEvent, session: Option<Session>)
      requires Valid()
      requires event == SignedIn && session.Some? ==> session.value.user.app_metadata.provider.Some?
      modifies this
      ensures Valid()
      ensures event == SignedIn && session.Some? ==>
        var profile := ConvertSupabaseUserToProfile(session.value);
        var p := session.value.user.app_metadata.provider.value;
        isLoggedIn && user == Some(profile) && provider == p &&
        storage == WithLogin(old(storage), session.value.access_token, profile, p)
      ensures !(event == SignedIn && session.Some?) ==>
        isLoggedIn == old(isLoggedIn) && user == old(user) && provider == old(provider) && storage == old(storage)
      ensures isLoading == old(isLoading)
    {
      if event == SignedIn && session.Some? {
        var userData := ConvertSupabaseUserToProfile(session.value);
        Login(session.value.access_token, userData, session.value.user.app_metadata.provider.value);
      }
    }
  }
}
