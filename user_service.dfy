/** src/lib/auth/userService.ts: the `users` table rules of social login.

    The table is a map from user id to row inside `UsersTable`; each remote
    query is replaced by the outcome it may have (`fetchFails`, `writeFails`).
    The random default image and the storage URL it resolves to are inputs. */
module UserService {
  import opened Wrappers
  import opened Strings
  import opened Types
  import opened Seqs

  const DEFAULT_IMAGE_COUNT: nat := 5
  const USERNAME_PREFIX: string := "dduzi"

  // ---------------------------------------------------------------------------
  // Default profile image

  /** `Math.floor(Math.random() * DEFAULT_IMAGE_COUNT) + 1`, for a draw `random`
      in the half-open interval [0, 1) that `Math.random` promises. */
  function DefaultImageNumber(random: real): (n: int)
    requires 0.0 <= random < 1.0
    ensures 1 <= n <= DEFAULT_IMAGE_COUNT
  {
    (random * DEFAULT_IMAGE_COUNT as real).Floor + 1
  }

  /** The storage path `default/profile_<n>.png` in the `profile` bucket. */
  function DefaultImagePath(n: int): (p: string)
    requires 1 <= n <= DEFAULT_IMAGE_COUNT
    ensures p == "default/profile_" + [DigitChar(n)] + ".png"
  {
    "default/profile_" + NatToString(n) + ".png"
  }

  /** The storage object `getRandomDefaultImageUrl` picks; its public URL is what the row stores. */
  function RandomDefaultImagePath(random: real): (p: string)
    requires 0.0 <= random < 1.0
    ensures exists n :: 1 <= n <= DEFAULT_IMAGE_COUNT && p == DefaultImagePath(n)
  {
    DefaultImagePath(DefaultImageNumber(random))
  }

  // ---------------------------------------------------------------------------
  // Usernames

  predicate IsHangulSyllable(c: char) {
    '\U{AC00}' <= c <= '\U{D7A3}'
  }

  /** The character class `[a-zA-Z0-9가-힣]`. */
  predicate IsUsernameChar(c: char) {
    ('a' <= c <= 'z') || ('A' <= c <= 'Z') || ('0' <= c <= '9') || IsHangulSyllable(c)
  }

  /** `nickname.replace(/[^a-zA-Z0-9가-힣]/g, '')`: the allowed characters, in order. */
  function CleanNickname(s: string): (r: string)
    ensures |r| <= |s|
    ensures forall k :: 0 <= k < |r| ==> IsUsernameChar(r[k])
  {
    Filter(s, IsUsernameChar)
  }

  /** Cleaning keeps every allowed character as often as it occurs and drops every other one. */
  lemma CleanNicknameCounts(s: string)
    ensures forall c :: multiset(CleanNickname(s))[c] == if IsUsernameChar(c) then multiset(s)[c] else 0
  {
    forall c ensures multiset(CleanNickname(s))[c] == if IsUsernameChar(c) then multiset(s)[c] else 0 {
      FilterMultiset(s, IsUsernameChar, c);
    }
  }

  /** Cleaning works piece by piece, so the kept characters stay in their original order. */
  lemma CleanNicknameConcat(a: string, b: string)
    ensures CleanNickname(a + b) == CleanNickname(a) + CleanNickname(b)
  {
    FilterConcat(a, b, IsUsernameChar);
  }

  /** One character is kept exactly when it is allowed. */
  lemma CleanNicknameChar(c: char)
    ensures CleanNickname([c]) == if IsUsernameChar(c) then [c] else []
  {
    assert [c][1..] == [];
  }

  /** A nickname made only of allowed characters is kept whole. */
  lemma CleanNicknameKeepsAllowed(s: string)
    requires forall k :: 0 <= k < |s| ==> IsUsernameChar(s[k])
    ensures CleanNickname(s) == s
  {
    FilterKeepsAll(s, IsUsernameChar);
  }

  function Min(a: int, b: int): int {
    if a <= b then a else b
  }

  /** `generateUsername`: `dduzi` followed by the cleaned nickname, or by the
      first eight characters of the user id when there is no nickname. */
  function GenerateUsername(nickname: Option<string>, userId: string): (r: string)
    ensures StartsWith(r, USERNAME_PREFIX)
    ensures Truthy(nickname) ==> r[|USERNAME_PREFIX|..] == CleanNickname(nickname.value)
    ensures !Truthy(nickname) ==> r[|USERNAME_PREFIX|..] == userId[..Min(8, |userId|)]
    ensures !Truthy(nickname) ==> |r| == |USERNAME_PREFIX| + Min(8, |userId|)
  {
    if Truthy(nickname) then USERNAME_PREFIX + CleanNickname(nickname.value)
    else USERNAME_PREFIX + userId[..Min(8, |userId|)]
  }

  // ---------------------------------------------------------------------------
  // The `users` table

  datatype UserRow = UserRow(
    id: string,
    username: Option<string>,
    bio: Option<string>,
    profile_image: Option<string>,
    provider: Option<string>,
    last_username_update: Option<int>)

  /** The optional `profile` argument of `createOrUpdateUser`. */
  datatype ProfileHint = ProfileHint(nickname: Option<string>, profileImageUrl: Option<string>)

  /** `profile?.nickname`. */
  function HintNickname(profile: Option<ProfileHint>): Option<string> {
    if profile.Some? then profile.value.nickname else None
  }

  /** `profile?.profileImageUrl`. */
  function HintImage(profile: Option<ProfileHint>): Option<string> {
    if profile.Some? then profile.value.profileImageUrl else None
  }

  /** The row a first login inserts. */
  function NewUserRow(user: SupabaseUser, profile: Option<ProfileHint>, defaultImageUrl: string, now: int): (row: UserRow)
    ensures row.id == user.id && row.bio == None
    ensures row.profile_image == Some(defaultImageUrl)
    ensures Truthy(HintNickname(profile)) ==> row.username == HintNickname(profile)
    ensures !Truthy(HintNickname(profile)) ==> row.username == user.user_metadata.name
    ensures row.provider == user.app_metadata.provider
    ensures row.last_username_update == Some(now)
  {
    UserRow(user.id, Or(HintNickname(profile), user.user_metadata.name), None,
            Some(defaultImageUrl), user.app_metadata.provider, Some(now))
  }

  /** The image candidates for a row without one, in order of preference. */
  function ImageCandidates(user: SupabaseUser, profile: Option<ProfileHint>): seq<Option<string>> {
    [HintImage(profile), user.user_metadata.profile_image, user.user_metadata.picture]
  }

  /** `profileImageToUse`: a stored image wins; otherwise the first non-empty of
      the login hint, metadata `profile_image` and metadata `picture`. */
  function ProfileImageToUse(existing: UserRow, user: SupabaseUser, profile: Option<ProfileHint>): (r: Option<string>)
    ensures Truthy(existing.profile_image) ==> r == existing.profile_image
    ensures !Truthy(existing.profile_image) && Truthy(HintImage(profile)) ==> r == HintImage(profile)
    ensures (!Truthy(existing.profile_image) && !Truthy(HintImage(profile))
             && Truthy(user.user_metadata.profile_image)) ==> r == user.user_metadata.profile_image
    ensures (!Truthy(existing.profile_image) && !Truthy(HintImage(profile))
             && !Truthy(user.user_metadata.profile_image)) ==> r == user.user_metadata.picture
  {
    var cands := ImageCandidates(user, profile);
    if Truthy(existing.profile_image) then existing.profile_image
    else
      if Truthy(cands[0]) then
        ChainPicksFirstTruthy(cands, 0); Chain(cands)
      else if Truthy(cands[1]) then
        ChainPicksFirstTruthy(cands, 1); Chain(cands)
      else
        ChainFallsThrough(cands); Chain(cands)
  }

  /** Applies the JSON body `{profile_image, provider}` of the update. supabase-js
      leaves `undefined` keys out of the body, so a `None` keeps the column. */
  function ApplyUpdate(row: UserRow, image: Option<string>, provider: Option<string>): (r: UserRow)
    ensures r.id == row.id && r.username == row.username && r.bio == row.bio
    ensures r.last_username_update == row.last_username_update
    ensures r.profile_image == if image.Some? then image else row.profile_image
    ensures r.provider == if provider.Some? then provider else row.provider
  {
    row.(profile_image := if image.Some? then image else row.profile_image,
         provider := if provider.Some? then provider else row.provider)
  }

  /** The row after a returning user's login. */
  function ExistingUserUpdate(existing: UserRow, user: SupabaseUser, profile: Option<ProfileHint>): (row: UserRow)
    ensures row.id == existing.id && row.username == existing.username && row.bio == existing.bio
    ensures row.last_username_update == existing.last_username_update
    ensures Truthy(existing.profile_image) ==> row.profile_image == existing.profile_image
    ensures Truthy(user.app_metadata.provider) ==> row.provider == user.app_metadata.provider
    ensures !Truthy(user.app_metadata.provider) ==> row.provider == existing.provider
  {
    ApplyUpdate(existing, ProfileImageToUse(existing, user, profile),
                Or(user.app_metadata.provider, existing.provider))
  }

  /** A returning user whose row lacks an image gets one whenever a candidate has one. */
  lemma ExistingUserGetsImage(existing: UserRow, user: SupabaseUser, profile: Option<ProfileHint>)
    requires !Truthy(existing.profile_image)
    ensures var cands := ImageCandidates(user, profile);
      Truthy(ExistingUserUpdate(existing, user, profile).profile_image)
      <==> exists j :: 0 <= j < |cands| && Truthy(cands[j])
  {
    var cands := ImageCandidates(user, profile);
    ChainTruthy(cands);
    var r := ProfileImageToUse(existing, user, profile);
    if Truthy(cands[0]) { ChainPicksFirstTruthy(cands, 0); }
    else if Truthy(cands[1]) { ChainPicksFirstTruthy(cands, 1); }
    else { ChainFallsThrough(cands); }
    assert r == Chain(cands);
  }

  /** Logging in again with the same data changes nothing further. */
  lemma ExistingUserUpdateIdempotent(existing: UserRow, user: SupabaseUser, profile: Option<ProfileHint>)
    ensures var once := ExistingUserUpdate(existing, user, profile);
      ExistingUserUpdate(once, user, profile) == once
  {
  }

  /** The default image a first login stores survives every later login. */
  lemma DefaultImageSurvives(user: SupabaseUser, profile: Option<ProfileHint>, defaultImageUrl: string, now: int,
                             later: SupabaseUser, laterProfile: Option<ProfileHint>)
    requires defaultImageUrl != "" && later.id == user.id
    ensures ExistingUserUpdate(NewUserRow(user, profile, defaultImageUrl, now), later, laterProfile).profile_image
            == Some(defaultImageUrl)
  {
  }

  datatype DbError = FetchError | InsertError | UpdateError

  /** The value `createOrUpdateUser` resolves to. */
  datatype UpsertResult = UpsertResult(user: UserRow, isNewUser: bool)

  /** The `users` table. */
  class UsersTable {
    var rows: map<string, UserRow>

    /** Rows are keyed by their own id (the table's primary key). */
    ghost predicate Valid()
      reads this
    {
      forall id :: id in rows ==> rows[id].id == id
    }

    constructor (initial: map<string, UserRow>)
      requires forall id :: id in initial ==> initial[id].id == id
      ensures Valid() && rows == initial
    {
      rows := initial;
    }

    /** `createOrUpdateUser`: look the user up by id; insert a fresh row when
        there is none (reporting a new user), otherwise update the image and
        provider of the existing row. `fetchFails` is a lookup error other than
        "no row" (PGRST116); `writeFails` is an error of the insert or update.
        Every error is rethrown, here returned as a `Failure`. */
    method CreateOrUpdateUser(user: SupabaseUser, profile: Option<ProfileHint>, defaultImageUrl: string,
                              now: int, fetchFails: bool, writeFails: bool)
      returns (r: Result<UpsertResult, DbError>)
      requires Valid()
      modifies this
      ensures Valid()
      ensures r.Success? ==> (r.value.isNewUser <==> user.id !in old(rows))
      ensures r.Success? ==> r.value.user.id == user.id && rows == old(rows)[user.id := r.value.user]
      ensures r.Failure? ==> rows == old(rows)
      ensures fetchFails ==> r == Failure(FetchError)
      ensures !fetchFails && writeFails ==> r == Failure(if user.id in old(rows) then UpdateError else InsertError)
      ensures !fetchFails && !writeFails && user.id !in old(rows) ==>
                r == Success(UpsertResult(NewUserRow(user, profile, defaultImageUrl, now), true))
      ensures !fetchFails && !writeFails && user.id in old(rows) ==>
                r == Success(UpsertResult(ExistingUserUpdate(old(rows)[user.id], user, profile), false))
    {
      if fetchFails {
        return Failure(FetchError);
      }
      if user.id !in rows {
        if writeFails {
          return Failure(InsertError);
        }
        var newUser := NewUserRow(user, profile, defaultImageUrl, now);
        rows := rows[user.id := newUser];
        r := Success(UpsertResult(newUser, true));
      } else {
        if writeFails {
          return Failure(UpdateError);
        }
        var updatedUser := ExistingUserUpdate(rows[user.id], user, profile);
        rows := rows[user.id := updatedUser];
        r := Success(UpsertResult(updatedUser, false));
      }
    }
  }

  // ---------------------------------------------------------------------------
  // The app-side profile

  /** The `provider` argument of `createUserProfile`. */
  datatype LoginProvider = Kakao | Google | Naver

  function ProviderName(p: LoginProvider): (s: string)
    ensures s in {"kakao", "google", "naver"}
  {
    match p
    case Kakao => "kakao"
    case Google => "google"
    case Naver => "naver"
  }

  /** `createUserProfile`: merges the auth user, the `users` row and the
      provider profile. Email and nickname default to the empty string, bio to
      null; the stored image wins over every provider-specific fallback; only
      the id of the raw provider profile is kept. */
  function CreateUserProfile(supabaseUser: SupabaseUser, dbUser: UserRow, provider: LoginProvider,
                             rawProfile: RawProfile): (p: UserProfile)
    ensures p.id == supabaseUser.id && p.provider == ProviderName(provider)
    ensures p.email == Some(OrElse(supabaseUser.email, ""))
    ensures p.nickname == Some(OrElse(dbUser.username, ""))
    ensures p.bio == if Truthy(dbUser.bio) then dbUser.bio else None
    ensures Truthy(dbUser.profile_image) ==> p.profileImage == dbUser.profile_image
    ensures !Truthy(dbUser.profile_image) ==> p.profileImage == match provider
      case Kakao => Or(rawProfile.profileImageUrl, rawProfile.thumbnailImageUrl)
      case Google => supabaseUser.user_metadata.picture
      case Naver => Or(rawProfile.profile_image, supabaseUser.user_metadata.picture)
    ensures p.name == if provider == Kakao then supabaseUser.user_metadata.name
                      else Or(supabaseUser.user_metadata.full_name, supabaseUser.user_metadata.name)
    ensures p.rawProfile == IdOnly(rawProfile.id)
  {
    var meta := supabaseUser.user_metadata;
    var email := Some(OrElse(supabaseUser.email, ""));
    var nickname := Some(OrElse(dbUser.username, ""));
    var bio := Or(dbUser.bio, None);
    match provider
    case Kakao =>
      UserProfile(supabaseUser.id, meta.name, email, "kakao",
                  Or(dbUser.profile_image, Or(rawProfile.profileImageUrl, rawProfile.thumbnailImageUrl)),
                  nickname, bio, IdOnly(rawProfile.id))
    case Google =>
      UserProfile(supabaseUser.id, Or(meta.full_name, meta.name), email, "google",
                  Or(dbUser.profile_image, meta.picture),
                  nickname, bio, IdOnly(rawProfile.id))
    case Naver =>
      UserProfile(supabaseUser.id, Or(meta.full_name, meta.name), email, "naver",
                  Or(dbUser.profile_image, Or(rawProfile.profile_image, meta.picture)),
                  nickname, bio, IdOnly(rawProfile.id))
  }
}
