/** src/screens/PostDetail/PostDetailScreen.tsx: the post detail screen.

    The screen's React state is the class `DetailScreen`; the three tables its
    delete handler touches are the class `PostTables`. The result of each
    remote query or update is an input of the handler that awaits it. */
module PostDetailScreen {
  import opened Wrappers
  import opened Types
  import opened Seqs

  /** The `users` row joined through `posts_user_id_fkey`. */
  datatype AuthorRow = AuthorRow(username: string, profile_image: Option<string>)

  /** The row the detail query selects. The embedded `post_images` and
      `knitting_logs` arrays may be missing. */
  datatype FetchedPost = FetchedPost(
    id: string,
    user_id: string,
    title: string,
    content: Option<string>,
    yarn_info: Option<string>,
    pattern_info: Option<string>,
    pattern_url: Option<string>,
    needleInfo: Option<string>,
    created_at: string,
    updated_at: string,
    users: AuthorRow,
    post_images: Option<seq<PostImage>>,
    knitting_logs: Option<seq<KnittingLog>>,
    is_completed: bool,
    visibility: Visibility)

  /** `xs || []` for an array: only a missing array is replaced, an empty one is truthy. */
  function OrEmpty<T>(xs: Option<seq<T>>): (r: seq<T>)
    ensures xs.Some? ==> r == xs.value
    ensures xs.None? ==> r == []
  {
    if xs.Some? then xs.value else []
  }

  // ---------------------------------------------------------------------------
  // Building the post detail

  /** The comparator `a.display_order - b.display_order` orders by this key. */
  function DisplayOrder(img: PostImage): int {
    img.display_order
  }

  /** The comparator `b.created_at - a.created_at` orders by this key. */
  function NewestFirstKey(log: KnittingLog): int {
    -log.created_at
  }

  predicate NewestFirst(logs: seq<KnittingLog>) {
    forall i, j :: 0 <= i < j < |logs| ==> logs[i].created_at >= logs[j].created_at
  }

  /** The images in ascending display order. */
  function SortImages(images: seq<PostImage>): (r: seq<PostImage>)
    ensures multiset(r) == multiset(images)
    ensures forall i, j :: 0 <= i < j < |r| ==> r[i].display_order <= r[j].display_order
  {
    SortByCorrect(images, DisplayOrder);
    SortBy(images, DisplayOrder)
  }

  /** The logs newest first. */
  function SortLogs(logs: seq<KnittingLog>): (r: seq<KnittingLog>)
    ensures multiset(r) == multiset(logs)
    ensures NewestFirst(r)
  {
    SortByCorrect(logs, NewestFirstKey);
    var r := SortBy(logs, NewestFirstKey);
    assert forall i, j :: 0 <= i < j < |r| ==> NewestFirstKey(r[i]) <= NewestFirstKey(r[j]);
    r
  }

  /** Images sharing a display order keep the order the query returned them in,
      since `Array.prototype.sort` is stable. */
  lemma ImagesKeepTieOrder(images: seq<PostImage>, order: int)
    ensures WithKey(SortImages(images), DisplayOrder, order) == WithKey(images, DisplayOrder, order)
  {
    SortByStable(images, DisplayOrder, order);
  }

  /** Logs created at the same instant keep the order the query returned them in. */
  lemma LogsKeepTieOrder(logs: seq<KnittingLog>, createdAt: int)
    ensures WithKey(SortLogs(logs), NewestFirstKey, -createdAt) == WithKey(logs, NewestFirstKey, -createdAt)
  {
    SortByStable(logs, NewestFirstKey, -createdAt);
  }

  /** The `postDetail` object `fetchPostDetail` builds from the fetched row. */
  function BuildPostDetail(data: FetchedPost): (p: PostDetail)
    ensures p.id == data.id && p.user_id == data.user_id && p.title == data.title
    ensures p.content == data.content && p.yarn_info == data.yarn_info
    ensures p.pattern_info == data.pattern_info && p.pattern_url == data.pattern_url
    ensures p.needleInfo == data.needleInfo
    ensures p.created_at == data.created_at && p.updated_at == data.updated_at
    ensures p.is_completed == data.is_completed && p.visibility == data.visibility
    ensures p.username == data.users.username && p.profile_image == data.users.profile_image
    ensures multiset(p.images) == multiset(OrEmpty(data.post_images))
    ensures forall i, j :: 0 <= i < j < |p.images| ==> p.images[i].display_order <= p.images[j].display_order
    ensures multiset(p.knitting_logs) == multiset(OrEmpty(data.knitting_logs))
    ensures NewestFirst(p.knitting_logs)
  {
    PostDetail(
      data.id, data.user_id, data.title, data.content, data.yarn_info,
      data.pattern_info, data.pattern_url, data.needleInfo,
      data.created_at, data.updated_at,
      data.users.username, data.users.profile_image,
      SortImages(OrEmpty(data.post_images)),
      SortLogs(OrEmpty(data.knitting_logs)),
      data.is_completed, data.visibility)
  }

  // ---------------------------------------------------------------------------
  // Ownership and the completion controls

  /** `post && user && post.user_id === user.id`. */
  function IsMyPost(post: Option<PostDetail>, user: Option<UserProfile>): (mine: bool)
    ensures mine ==> post.Some? && user.Some?
    ensures mine <==> post.Some? && user.Some? && post.value.user_id == user.value.id
  {
    post.Some? && user.Some? && post.value.user_id == user.value.id
  }

  /** The "complete the project" button. */
  predicate ShowCompleteButton(post: Option<PostDetail>, user: Option<UserProfile>) {
    !(post.Some? && post.value.is_completed) && IsMyPost(post, user)
  }

  /** The "completed" badge. */
  predicate ShowCompletedBadge(post: Option<PostDetail>, user: Option<UserProfile>) {
    post.Some? && post.value.is_completed && IsMyPost(post, user)
  }

  /** The button shows exactly for an own, uncompleted post and the badge exactly
      for an own, completed post, so never both. */
  lemma CompletionControls(post: Option<PostDetail>, user: Option<UserProfile>)
    ensures ShowCompleteButton(post, user) <==> IsMyPost(post, user) && !post.value.is_completed
    ensures ShowCompletedBadge(post, user) <==> IsMyPost(post, user) && post.value.is_completed
    ensures !(ShowCompleteButton(post, user) && ShowCompletedBadge(post, user))
    ensures IsMyPost(post, user) ==> ShowCompleteButton(post, user) || ShowCompletedBadge(post, user)
  {
  }

  /** The local post after a successful completion. */
  function Completed(p: PostDetail, visibility: Visibility): (r: PostDetail)
    ensures r.is_completed && r.visibility == visibility
    ensures r.(is_completed := p.is_completed, visibility := p.visibility) == p
  {
    p.(is_completed := true, visibility := visibility)
  }

  /** Completing an own post replaces the button with the badge. */
  lemma CompletingShowsBadge(p: PostDetail, user: Option<UserProfile>, visibility: Visibility)
    requires IsMyPost(Some(p), user)
    ensures ShowCompletedBadge(Some(Completed(p, visibility)), user)
    ensures !ShowCompleteButton(Some(Completed(p, visibility)), user)
  {
  }

  /** The update `completePost` (src/lib/post/postUtils.ts) sends for a post. */
  datatype CompletionUpdate = CompletionUpdate(postId: string, visibility: Visibility)

  // ---------------------------------------------------------------------------
  // Deleting

  datatype Table = KnittingLogsTable | PostImagesTable | PostsTable

  /** `supabase.from(table).delete().eq(column, value)`. */
  datatype DeleteRequest = DeleteWhere(table: Table, column: string, value: string)

  /** The rows of a child table that do not belong to `postId`. */
  function WithoutPost(rows: map<string, string>, postId: string): (r: map<string, string>)
    ensures forall id :: id in r <==> id in rows && rows[id] != postId
    ensures forall id :: id in r ==> r[id] == rows[id]
  {
    map id | id in rows && rows[id] != postId :: rows[id]
  }

  /** The rows the delete handler touches: the ids of `posts`, and the
      `post_id` column of `knitting_logs` and `post_images`, keyed by row id. */
  class PostTables {
    var posts: set<string>
    var logPosts: map<string, string>
    var imagePosts: map<string, string>

    constructor (posts: set<string>, logPosts: map<string, string>, imagePosts: map<string, string>)
      ensures this.posts == posts && this.logPosts == logPosts && this.imagePosts == imagePosts
    {
      this.posts := posts;
      this.logPosts := logPosts;
      this.imagePosts := imagePosts;
    }

    /** Applies one delete; a delete the server rejects (`applied` false) changes nothing. */
    method Apply(request: DeleteRequest, applied: bool)
      modifies this
      ensures !applied ==> posts == old(posts) && logPosts == old(logPosts) && imagePosts == old(imagePosts)
      ensures applied && request == DeleteWhere(KnittingLogsTable, "post_id", request.value) ==>
        posts == old(posts) && logPosts == WithoutPost(old(logPosts), request.value) && imagePosts == old(imagePosts)
      ensures applied && request == DeleteWhere(PostImagesTable, "post_id", request.value) ==>
        posts == old(posts) && logPosts == old(logPosts) && imagePosts == WithoutPost(old(imagePosts), request.value)
      ensures applied && request == DeleteWhere(PostsTable, "id", request.value) ==>
        posts == old(posts) - {request.value} && logPosts == old(logPosts) && imagePosts == old(imagePosts)
    {
      if applied {
        match request.table {
          case KnittingLogsTable =>
            if request.column == "post_id" {
              logPosts := WithoutPost(logPosts, request.value);
            }
          case PostImagesTable =>
            if request.column == "post_id" {
              imagePosts := WithoutPost(imagePosts, request.value);
            }
          case PostsTable =>
            if request.column == "id" {
              posts := posts - {request.value};
            }
        }
      }
    }
  }

  /** The three deletes of `handleDelete`, in the order they are awaited. */
  function DeleteRequests(postId: string): (rs: seq<DeleteRequest>)
    ensures |rs| == 3
    ensures forall k :: 0 <= k < 3 ==> rs[k].value == postId
    ensures rs[0].table == KnittingLogsTable && rs[1].table == PostImagesTable && rs[2].table == PostsTable
  {
    [DeleteWhere(KnittingLogsTable, "post_id", postId),
     DeleteWhere(PostImagesTable, "post_id", postId),
     DeleteWhere(PostsTable, "id", postId)]
  }

  // ---------------------------------------------------------------------------
  // The screen

  class DetailScreen {
    const postId: string
    var post: Option<PostDetail>
    var loading: bool
    var showActionSheet: bool
    var isDeleting: bool
    var modalVisible: bool

    constructor (postId: string)
      ensures this.postId == postId && post == None && loading
      ensures !showActionSheet && !isDeleting && !modalVisible
    {
      this.postId := postId;
      post := None;
      loading := true;
      showActionSheet := false;
      isDeleting := false;
      modalVisible := false;
    }

    /** `fetchPostDetail`; `fetched` is the selected row, `None` when the query reports an error. */
    method FetchPostDetail(fetched: Option<FetchedPost>)
      modifies this
      ensures fetched.Some? ==> post == Some(BuildPostDetail(fetched.value))
      ensures fetched.None? ==> post == old(post)
      ensures !loading
      ensures showActionSheet == old(showActionSheet) && isDeleting == old(isDeleting)
      ensures modalVisible == old(modalVisible)
    {
      loading := true;
      if fetched.Some? {
        post := Some(BuildPostDetail(fetched.value));
      }
      loading := false;
    }

    /** `handleCompletePress`. */
    method OpenCompleteModal()
      modifies this
      ensures modalVisible
      ensures post == old(post) && loading == old(loading)
      ensures showActionSheet == old(showActionSheet) && isDeleting == old(isDeleting)
    {
      modalVisible := true;
    }

    /** `handleConfirmComplete`; `succeeded` is what `completePost` reports for `update`. */
    method ConfirmComplete(visibility: Visibility, succeeded: bool) returns (update: Option<CompletionUpdate>)
      modifies this
      ensures old(post).None? ==> update == None && post == old(post)
      ensures old(post).None? ==> loading == old(loading) && modalVisible == old(modalVisible)
      ensures old(post).Some? ==> update == Some(CompletionUpdate(old(post).value.id, visibility)) && !loading
      ensures old(post).Some? && succeeded ==> post == Some(Completed(old(post).value, visibility)) && !modalVisible
      ensures old(post).Some? && !succeeded ==> post == old(post) && modalVisible == old(modalVisible)
      ensures showActionSheet == old(showActionSheet) && isDeleting == old(isDeleting)
    {
      if post.None? {
        return None;
      }
      loading := true;
      update := Some(CompletionUpdate(post.value.id, visibility));
      if succeeded {
        post := Some(Completed(post.value, visibility));
        modalVisible := false;
      }
      loading := false;
    }

    /** The confirmed branch of `handleDelete`. The code does not look at the
        error each delete returns, so every delete is issued whatever the
        outcome of the previous one; `applied[k]` says whether the k-th took effect. */
    method ConfirmDelete(db: PostTables, applied: seq<bool>) returns (requests: seq<DeleteRequest>)
      requires |applied| == 3
      modifies this, db
      ensures requests == DeleteRequests(postId)
      ensures db.logPosts == if applied[0] then WithoutPost(old(db.logPosts), postId) else old(db.logPosts)
      ensures db.imagePosts == if applied[1] then WithoutPost(old(db.imagePosts), postId) else old(db.imagePosts)
      ensures db.posts == if applied[2] then old(db.posts) - {postId} else old(db.posts)
      ensures !isDeleting && !showActionSheet
      ensures post == old(post) && loading == old(loading) && modalVisible == old(modalVisible)
    {
      isDeleting := true;
      requests := DeleteRequests(postId);
      db.Apply(requests[0], applied[0]);
      db.Apply(requests[1], applied[1]);
      db.Apply(requests[2], applied[2]);
      isDeleting := false;
      showActionSheet := false;
    }
  }
}
