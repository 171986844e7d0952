/** Records shared by several screens and services: the Supabase Auth user as
    the app reads it, the provider SDK profile, and the app's own `UserProfile`
    (src/@types/auth.d.ts). Only the keys the modelled code reads or writes are
    kept; a missing or `null` key is `None`. */
module Types {
  import opened Wrappers

  /** `user.user_metadata` of a Supabase Auth user. */
  datatype UserMetadata = UserMetadata(
    full_name: Option<string>,
    name: Option<string>,
    avatar_url: Option<string>,
    picture: Option<string>,
    profile_image: Option<string>,
    email_verified: Option<bool>)

  /** `user.app_metadata` of a Supabase Auth user. */
  datatype AppMetadata = AppMetadata(provider: Option<string>)

  /** The Supabase Auth user object. */
  datatype SupabaseUser = SupabaseUser(
    id: string,
    email: Option<string>,
    user_metadata: UserMetadata,
    app_metadata: AppMetadata)

  /** A Kakao profile id is a number; Naver and Google ids are strings. */
  datatype RawId = NumberId(number: int) | StringId(text: string)

  /** The provider SDK's profile object (the union of the Kakao, Naver and
      Google shapes, with the keys the app reads). */
  datatype RawProfile = RawProfile(
    id: RawId,
    email: Option<string>,
    name: Option<string>,
    picture: Option<string>,
    verified_email: Option<bool>,
    profileImageUrl: Option<string>,
    thumbnailImageUrl: Option<string>,
    profile_image: Option<string>)

  /** A raw profile that keeps nothing but its id. */
  function IdOnly(id: RawId): (r: RawProfile)
    ensures r.id == id
  {
    RawProfile(id, None, None, None, None, None, None, None)
  }

  /** The app's unified `UserProfile`. */
  datatype UserProfile = UserProfile(
    id: string,
    name: Option<string>,
    email: Option<string>,
    provider: string,
    profileImage: Option<string>,
    nickname: Option<string>,
    bio: Option<string>,
    rawProfile: RawProfile)

  // ---------------------------------------------------------------------------
  // Posts (src/@types/post.ts)

  datatype Visibility = Public | Private

  /** A row of `post_images`. */
  datatype PostImage = PostImage(id: string, image_url: string, display_order: int)

  /** A row of `knitting_logs`. Its `created_at` timestamp is kept as the
      instant it denotes, in milliseconds since the epoch. */
  datatype KnittingLog = KnittingLog(id: string, content: string, created_at: int)

  /** The post the detail screen shows and hands to the editor. Columns the
      editor writes as `null` are optional. */
  datatype PostDetail = PostDetail(
    id: string,
    user_id: string,
    title: string,
    content: Option<string>,
    yarn_info: Option<string>,
    pattern_info: Option<string>,
    pattern_url: Option<string>,
    needleInfo: Option<string>,
    created_at: string,
    updated_at: string,
    username: string,
    profile_image: Option<string>,
    images: seq<PostImage>,
    knitting_logs: seq<KnittingLog>,
    is_completed: bool,
    visibility: Visibility)
}
