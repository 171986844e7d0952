/** src/screens/PostCreate/PostCreateScreen.tsx: the editor that creates a
    knitting project post or edits one.

    The screen's React state is the class `EditorState`; each handler is a
    method. `Submit` models `handleSubmit`: instead of talking to Supabase it
    returns the writes it issues, in order, given the outcome of each remote
    call as a parameter. */
module PostCreateScreen {
  import opened Wrappers
  import opened Strings
  import opened Types
  import opened Seqs
  import opened UploadImage

  const MS_PER_DAY: int := 86400000
  const MAX_IMAGES: int := 10
  const POST_IMAGES_BUCKET: string := "post-images"

  /** The local calendar day of an instant, for local time `utcOffset`
      milliseconds ahead of UTC. Two instants fall on the same local day
      exactly when `setHours(0, 0, 0, 0)` maps them to the same instant. */
  function LocalDay(instant: int, utcOffset: int): int {
    (instant + utcOffset) / MS_PER_DAY
  }

  /** An entry of the editable log list; `log_date` is an instant. */
  datatype EditableLog = EditableLog(id: string, log_date: int, content: string)

  /** The empty log the editor starts with, keyed by the current time. */
  function FreshLog(now: nat): (log: EditableLog)
    ensures log.content == "" && log.log_date == now
    ensures log.id == NatToString(now) && ParseNat(log.id) == now
  {
    ParseNatToString(now);
    EditableLog(NatToString(now), now, "")
  }

  datatype Mode = Create | Edit

  // ---------------------------------------------------------------------------
  // Loading a post for editing

  /** `logs.find(...)`: the index of the first log written on local day `today`. */
  function FindTodayLog(logs: seq<KnittingLog>, today: int, utcOffset: int): (r: Option<nat>)
    ensures r.Some? ==> r.value < |logs| && LocalDay(logs[r.value].created_at, utcOffset) == today
    ensures r.Some? ==> forall j :: 0 <= j < r.value ==> LocalDay(logs[j].created_at, utcOffset) != today
    ensures r.None? ==> forall j :: 0 <= j < |logs| ==> LocalDay(logs[j].created_at, utcOffset) != today
  {
    if logs == [] then None
    else if LocalDay(logs[0].created_at, utcOffset) == today then Some(0)
    else
      match FindTodayLog(logs[1..], today, utcOffset)
      case None => None
      case Some(i) => Some(i + 1)
  }

  function NotLog(id: string): KnittingLog -> bool {
    (log: KnittingLog) => log.id != id
  }

  /** `logs.filter(log => log.id !== id)`. */
  function OtherLogs(logs: seq<KnittingLog>, id: string): (r: seq<KnittingLog>)
    ensures forall k :: 0 <= k < |r| ==> r[k].id != id
  {
    Filter(logs, NotLog(id))
  }

  /** The other logs keep their relative order. */
  lemma OtherLogsInOrder(a: seq<KnittingLog>, b: seq<KnittingLog>, id: string)
    ensures OtherLogs(a + b, id) == OtherLogs(a, id) + OtherLogs(b, id)
  {
    FilterConcat(a, b, NotLog(id));
  }

  predicate DistinctIds(logs: seq<KnittingLog>) {
    forall i, j :: 0 <= i < j < |logs| ==> logs[i].id != logs[j].id
  }

  /** With distinct ids, the read-only logs and the editable today-log together
      hold every loaded log exactly once. */
  lemma {:induction false} EachLoadedLogOnce(logs: seq<KnittingLog>, i: nat)
    requires DistinctIds(logs) && i < |logs|
    ensures multiset(OtherLogs(logs, logs[i].id)) + multiset{logs[i]} == multiset(logs)
  {
    var id := logs[i].id;
    var tail := logs[1..];
    assert logs == [logs[0]] + tail;
    assert Filter(logs, NotLog(id)) == (if NotLog(id)(logs[0]) then [logs[0]] else []) + Filter(tail, NotLog(id));
    if i == 0 {
      forall k | 0 <= k < |tail| ensures NotLog(id)(tail[k]) {
        assert tail[k] == logs[k + 1];
      }
      FilterKeepsAll(tail, NotLog(id));
    } else {
      assert logs[0].id != id;
      assert tail[i - 1] == logs[i];
      EachLoadedLogOnce(tail, i - 1);
    }
  }

  /** What the load effect does with the logs: the read-only logs, the id of
      the loaded today-log, and the editable logs. */
  datatype LogSplit = LogSplit(existingLogs: seq<KnittingLog>, todayLogId: Option<string>,
                               knittingLogs: seq<EditableLog>)

  /** The first log written on the local day of `now` becomes the one editable
      log and keeps its id and content; the others stay read-only, in order.
      Without such a log every log is read-only and a fresh log is editable. */
  function SplitTodayLog(logs: seq<KnittingLog>, now: nat, utcOffset: int): (r: LogSplit)
    ensures |r.knittingLogs| == 1
    ensures r.todayLogId.Some? ==> r.knittingLogs[0].id == r.todayLogId.value
    ensures r.todayLogId.None? ==> r.existingLogs == logs && r.knittingLogs == [FreshLog(now)]
  {
    match FindTodayLog(logs, LocalDay(now, utcOffset), utcOffset)
    case Some(i) =>
      LogSplit(OtherLogs(logs, logs[i].id), Some(logs[i].id),
               [EditableLog(logs[i].id, logs[i].created_at, logs[i].content)])
    case None =>
      LogSplit(logs, None, [FreshLog(now)])
  }

  /** The split finds a today-log exactly when some log was written on the local
      day of `now`, and then it is the first such log. */
  lemma SplitTodayLogPicksFirst(logs: seq<KnittingLog>, now: nat, utcOffset: int)
    ensures var r := SplitTodayLog(logs, now, utcOffset);
      r.todayLogId.Some? <==>
        exists j :: 0 <= j < |logs| && LocalDay(logs[j].created_at, utcOffset) == LocalDay(now, utcOffset)
    ensures var r := SplitTodayLog(logs, now, utcOffset);
      r.todayLogId.Some? ==>
        exists i :: (0 <= i < |logs| &&
          LocalDay(logs[i].created_at, utcOffset) == LocalDay(now, utcOffset) &&
          (forall j :: 0 <= j < i ==> LocalDay(logs[j].created_at, utcOffset) != LocalDay(now, utcOffset)) &&
          r.todayLogId == Some(logs[i].id) && r.existingLogs == OtherLogs(logs, logs[i].id) &&
          r.knittingLogs == [EditableLog(logs[i].id, logs[i].created_at, logs[i].content)])
  {
    var today := LocalDay(now, utcOffset);
    match FindTodayLog(logs, today, utcOffset)
    case Some(i) =>
      assert LocalDay(logs[i].created_at, utcOffset) == today;
    case None =>
  }

  // ---------------------------------------------------------------------------
  // Editing the lists

  /** `s.filter((_, i) => i !== index)`. */
  function RemoveAt<T>(s: seq<T>, index: int): (r: seq<T>)
    ensures 0 <= index < |s| ==> |r| == |s| - 1
    ensures 0 <= index < |s| ==> forall k :: 0 <= k < index ==> r[k] == s[k]
    ensures 0 <= index < |s| ==> forall k :: index <= k < |r| ==> r[k] == s[k + 1]
    ensures !(0 <= index < |s|) ==> r == s
  {
    if 0 <= index < |s| then s[..index] + s[index + 1..] else s
  }

  /** Removing at an index drops exactly that element. */
  lemma RemoveAtMultiset<T>(s: seq<T>, index: int)
    requires 0 <= index < |s|
    ensures multiset(RemoveAt(s, index)) + multiset{s[index]} == multiset(s)
  {
    assert s == s[..index] + [s[index]] + s[index + 1..];
  }

  function NotImage(id: string): PostImage -> bool {
    (img: PostImage) => img.id != id
  }

  /** `existingImages.filter(img => img.id !== imageId)`. */
  function WithoutImage(images: seq<PostImage>, id: string): (r: seq<PostImage>)
    ensures |r| <= |images|
    ensures forall k :: 0 <= k < |r| ==> r[k].id != id
  {
    Filter(images, NotImage(id))
  }

  /** Only the entries with that id go; the others keep their relative order
      and their number of occurrences. */
  lemma WithoutImageKeepsOthers(images: seq<PostImage>, id: string)
    ensures forall img: PostImage :: img.id != id ==> multiset(WithoutImage(images, id))[img] == multiset(images)[img]
    ensures forall img: PostImage :: img.id == id ==> img !in WithoutImage(images, id)
    ensures forall a, b :: images == a + b ==> WithoutImage(images, id) == WithoutImage(a, id) + WithoutImage(b, id)
  {
    forall img: PostImage ensures multiset(WithoutImage(images, id))[img] == if img.id != id then multiset(images)[img] else 0 {
      FilterMultiset(images, NotImage(id), img);
    }
    forall a, b | images == a + b ensures WithoutImage(images, id) == WithoutImage(a, id) + WithoutImage(b, id) {
      FilterConcat(a, b, NotImage(id));
    }
  }

  /** The `knittingLogs.map(...)` of `handleLogContentChange`. */
  function SetLogContent(logs: seq<EditableLog>, id: string, text: string): (r: seq<EditableLog>)
    ensures |r| == |logs|
    ensures forall k :: 0 <= k < |r| ==> r[k].id == logs[k].id && r[k].log_date == logs[k].log_date
    ensures forall k :: 0 <= k < |r| ==> r[k].content == if logs[k].id == id then text else logs[k].content
  {
    seq(|logs|, k requires 0 <= k < |logs| => if logs[k].id == id then logs[k].(content := text) else logs[k])
  }

  // ---------------------------------------------------------------------------
  // Saving

  /** The columns `handleSubmit` writes to `posts`. */
  datatype PostFields = PostFields(
    title: string,
    content: Option<string>,
    yarn_info: Option<string>,
    needleInfo: Option<string>,
    pattern_info: Option<string>,
    pattern_url: Option<string>)

  datatype NewImageRow = NewImageRow(post_id: string, image_url: string, display_order: int)

  /** A database write `handleSubmit` issues. */
  datatype Write =
    | UpdatePost(postId: string, fields: PostFields, updatedAt: nat)
    | InsertPost(userId: string, fields: PostFields)
    | DeleteImages(ids: seq<string>)
    | InsertImages(rows: seq<NewImageRow>)
    | UpdateLog(logId: string, content: string)
    | InsertLog(postId: string, content: string)

  datatype SubmitOutcome = BlankTitle | NotLoggedIn | SaveFailed | Saved

  predicate IsBlank(s: string) {
    Trim(s) == ""
  }

  /** The columns from the form: the trimmed title, and each optional field
      trimmed, or `null` when blank. */
  function FormFields(title: string, content: string, yarnInfo: string, needleInfo: string,
                      patternInfo: string, patternUrl: string): (f: PostFields)
    ensures f.title == Trim(title)
    ensures f.content.None? <==> IsBlank(content)
    ensures f.content.Some? ==> f.content.value == Trim(content) && f.content.value != ""
    ensures f.yarn_info.None? <==> IsBlank(yarnInfo)
    ensures f.yarn_info.Some? ==> f.yarn_info.value == Trim(yarnInfo) && f.yarn_info.value != ""
    ensures f.needleInfo.None? <==> IsBlank(needleInfo)
    ensures f.needleInfo.Some? ==> f.needleInfo.value == Trim(needleInfo) && f.needleInfo.value != ""
    ensures f.pattern_info.None? <==> IsBlank(patternInfo)
    ensures f.pattern_info.Some? ==> f.pattern_info.value == Trim(patternInfo) && f.pattern_info.value != ""
    ensures f.pattern_url.None? <==> IsBlank(patternUrl)
    ensures f.pattern_url.Some? ==> f.pattern_url.value == Trim(patternUrl) && f.pattern_url.value != ""
  {
    TrimEmptyIffBlank(content);
    TrimEmptyIffBlank(yarnInfo);
    TrimEmptyIffBlank(needleInfo);
    TrimEmptyIffBlank(patternInfo);
    TrimEmptyIffBlank(patternUrl);
    PostFields(Trim(title), NonBlankOrNull(content), NonBlankOrNull(yarnInfo), NonBlankOrNull(needleInfo),
               NonBlankOrNull(patternInfo), NonBlankOrNull(patternUrl))
  }

  /** The `post_images` rows for the uploaded URLs: display orders `start`,
      `start + 1`, ... in upload order. */
  function ImageRows(postId: string, urls: seq<string>, start: int): (rows: seq<NewImageRow>)
    ensures |rows| == |urls|
    ensures forall k :: 0 <= k < |rows| ==> rows[k].post_id == postId && rows[k].image_url == urls[k]
    ensures forall k :: 0 <= k < |rows| ==> rows[k].display_order == start + k
  {
    seq(|urls|, k requires 0 <= k < |urls| => NewImageRow(postId, urls[k], start + k))
  }

  /** `existingImages.length`, the first display order the code gives new images. */
  function AsWrittenStartOrder(existing: seq<PostImage>): int {
    |existing|
  }

  /** After an existing image is removed, the remaining ones keep their stored
      display orders, so the first new image can be ordered before them: the
      editor shows it last, the detail screen first. */
  lemma AsWrittenStartCanPrecedeExisting()
    ensures var existing := [PostImage("c", "u", 2)];
            ImageRows("p", ["v"], AsWrittenStartOrder(existing))[0].display_order < existing[0].display_order
  {
  }

  /** The largest display order among the images. */
  function MaxDisplayOrder(images: seq<PostImage>): (m: int)
    requires images != []
    ensures forall k :: 0 <= k < |images| ==> images[k].display_order <= m
  {
    if |images| == 1 then images[0].display_order
    else
      var rest := MaxDisplayOrder(images[1..]);
      assert forall k :: 1 <= k < |images| ==> images[k] == images[1..][k - 1];
      if images[0].display_order >= rest then images[0].display_order else rest
  }

  /** The maximum is the display order of one of the images. */
  lemma {:induction false} MaxDisplayOrderAttained(images: seq<PostImage>)
    requires images != []
    ensures exists k :: 0 <= k < |images| && images[k].display_order == MaxDisplayOrder(images)
  {
    if |images| > 1 && images[0].display_order < MaxDisplayOrder(images[1..]) {
      MaxDisplayOrderAttained(images[1..]);
      var k :| 0 <= k < |images[1..]| && images[1..][k].display_order == MaxDisplayOrder(images[1..]);
      assert images[k + 1].display_order == MaxDisplayOrder(images);
    } else {
      assert images[0].display_order == MaxDisplayOrder(images);
    }
  }

  /** The first display order for new images: one past every kept image. */
  function NextDisplayOrder(existing: seq<PostImage>): (start: int)
    ensures forall k :: 0 <= k < |existing| ==> existing[k].display_order < start
    ensures existing == [] ==> start == 0
  {
    if existing == [] then 0 else MaxDisplayOrder(existing) + 1
  }

  /** Every new image is ordered after every image the post keeps. */
  lemma NewImagesFollowExisting(postId: string, urls: seq<string>, existing: seq<PostImage>)
    ensures forall k, j :: 0 <= k < |urls| && 0 <= j < |existing| ==>
              existing[j].display_order < ImageRows(postId, urls, NextDisplayOrder(existing))[k].display_order
  {
  }

  /** When the kept images are ordered 0, 1, ..., n-1 (nothing was removed), the
      corrected start is the code's `existingImages.length`. */
  lemma NextOrderAgreesWhenContiguous(existing: seq<PostImage>)
    requires forall k :: 0 <= k < |existing| ==> existing[k].display_order == k
    ensures NextDisplayOrder(existing) == AsWrittenStartOrder(existing)
  {
    if existing != [] {
      MaxDisplayOrderAttained(existing);
      assert existing[|existing| - 1].display_order == |existing| - 1;
    }
  }

  /** The image insert, when any upload succeeded. */
  function ImageWrites(postId: string, urls: seq<string>, start: int): (ws: seq<Write>)
    ensures |urls| == 0 ==> ws == []
    ensures |urls| > 0 ==> ws == [InsertImages(ImageRows(postId, urls, start))]
  {
    if |urls| > 0 then [InsertImages(ImageRows(postId, urls, start))] else []
  }

  /** `log.content.trim() !== ''`. */
  predicate HasContent(log: EditableLog) {
    !IsBlank(log.content)
  }

  /** `validLogs`: the logs with non-blank content, in order. */
  function ValidLogs(logs: seq<EditableLog>): (r: seq<EditableLog>)
    ensures forall k :: 0 <= k < |r| ==> !IsBlank(r[k].content)
    ensures forall log :: log in logs && !IsBlank(log.content) ==> log in r
  {
    forall log | log in logs && !IsBlank(log.content) ensures log in Filter(logs, HasContent) {
      FilterMultiset(logs, HasContent, log);
    }
    Filter(logs, HasContent)
  }

  /** The write for one saved log: an update of the loaded today-log in edit
      mode, an insert under the post otherwise; either way the trimmed text. */
  function RouteLog(log: EditableLog, mode: Mode, todayLogId: Option<string>, postId: string): (w: Write)
    ensures w.UpdateLog? <==> mode == Edit && Truthy(todayLogId) && log.id == todayLogId.value
    ensures w.UpdateLog? ==> w.logId == log.id && w.content == Trim(log.content)
    ensures !w.UpdateLog? ==> w == InsertLog(postId, Trim(log.content))
  {
    if mode == Edit && Truthy(todayLogId) && log.id == todayLogId.value then
      UpdateLog(todayLogId.value, Trim(log.content))
    else
      InsertLog(postId, Trim(log.content))
  }

  /** A loaded today-log with text is saved as one update of that log. */
  lemma TodayLogIsUpdated(log: EditableLog, todayLogId: Option<string>, postId: string)
    requires Truthy(todayLogId) && log.id == todayLogId.value && !IsBlank(log.content)
    ensures |ValidLogs([log])| == 1
    ensures RouteLog(ValidLogs([log])[0], Edit, todayLogId, postId) == UpdateLog(log.id, Trim(log.content))
  {
    assert Filter([log], HasContent) == [log] + Filter([log][1..], HasContent);
    assert [log][1..] == [];
  }

  /** A blank log writes nothing. */
  lemma BlankLogIsSkipped(log: EditableLog)
    requires IsBlank(log.content)
    ensures ValidLogs([log]) == []
  {
    assert Filter([log], HasContent) == [] + Filter([log][1..], HasContent);
    assert [log][1..] == [];
  }

  /** The writes of the image step: when some upload succeeded, one insert of a
      row per uploaded URL, the k-th ordered `existingImages.length + k`. */
  function UploadWrites(images: seq<PickedImage>, outcomes: nat -> UploadResponse,
                        postId: string, existing: seq<PostImage>): (ws: seq<Write>)
    ensures |ws| <= 1
    ensures ws == [] <==> Collected(UploadAll(images, outcomes)) == []
    ensures ws != [] ==> ws[0].InsertImages? && |ws[0].rows| == |Collected(UploadAll(images, outcomes))|
    ensures ws != [] ==> forall k :: 0 <= k < |ws[0].rows| ==>
              ws[0].rows[k] == NewImageRow(postId, Collected(UploadAll(images, outcomes))[k], |existing| + k)
  {
    if |images| > 0 then ImageWrites(postId, Collected(UploadAll(images, outcomes)), AsWrittenStartOrder(existing)) else []
  }

  /** The writes of the log loop, one per saved log, in order. */
  function LogWrites(logs: seq<EditableLog>, mode: Mode, todayLogId: Option<string>, postId: string): (ws: seq<Write>)
    ensures |ws| == |logs|
    ensures forall k :: 0 <= k < |ws| ==> ws[k] == RouteLog(logs[k], mode, todayLogId, postId)
  {
    seq(|logs|, k requires 0 <= k < |logs| => RouteLog(logs[k], mode, todayLogId, postId))
  }

  /** The `for (const log of validLogs)` loop of `handleSubmit`. */
  method SaveLogs(validLogs: seq<EditableLog>, mode: Mode, todayLogId: Option<string>, postId: string)
    returns (ws: seq<Write>)
    ensures ws == LogWrites(validLogs, mode, todayLogId, postId)
  {
    ghost var all := LogWrites(validLogs, mode, todayLogId, postId);
    ws := [];
    for k := 0 to |validLogs|
      invariant ws == all[..k]
    {
      ws := ws + [RouteLog(validLogs[k], mode, todayLogId, postId)];
      PrefixStep(all, k);
    }
    assert all[..|validLogs|] == all;
  }

  datatype TextField = TitleField | ContentField | YarnField | NeedleField | PatternField | PatternUrlField

  // ---------------------------------------------------------------------------
  // The screen

  class EditorState {
    const mode: Mode
    const postData: Option<PostDetail>
    var title: string
    var content: string
    var yarnInfo: string
    var needleInfo: string
    var patternInfo: string
    var patternUrl: string
    var images: seq<PickedImage>
    var existingImages: seq<PostImage>
    var deletedImageIds: seq<string>
    var existingLogs: seq<KnittingLog>
    var todayLogId: Option<string>
    var knittingLogs: seq<EditableLog>

    /** There is one editable log, and it is the loaded today-log when there is one. */
    ghost predicate Valid()
      reads this
    {
      |knittingLogs| == 1 && (todayLogId.Some? ==> knittingLogs[0].id == todayLogId.value)
    }

    /** The initial state, with one fresh log created at `now`. */
    constructor (mode: Mode, postData: Option<PostDetail>, now: nat)
      ensures Valid()
      ensures this.mode == mode && this.postData == postData
      ensures title == "" && content == "" && yarnInfo == "" && needleInfo == ""
      ensures patternInfo == "" && patternUrl == ""
      ensures images == [] && existingImages == [] && deletedImageIds == [] && existingLogs == []
      ensures todayLogId == None && knittingLogs == [FreshLog(now)]
    {
      this.mode := mode;
      this.postData := postData;
      title, content, yarnInfo, needleInfo, patternInfo, patternUrl := "", "", "", "", "", "";
      images, existingImages, deletedImageIds, existingLogs := [], [], [], [];
      todayLogId := None;
      knittingLogs := [FreshLog(now)];
    }

    /** The edit-mode load effect, run at `now` in a time zone `utcOffset` ahead of UTC. */
    method LoadEditData(now: nat, utcOffset: int)
      requires Valid()
      modifies this
      ensures Valid()
      ensures images == old(images) && deletedImageIds == old(deletedImageIds)
      ensures !(mode == Edit && postData.Some?) ==> unchanged(this)
      ensures mode == Edit && postData.Some? ==>
        title == postData.value.title && content == OrElse(postData.value.content, "") &&
        yarnInfo == OrElse(postData.value.yarn_info, "") && needleInfo == OrElse(postData.value.needleInfo, "") &&
        patternInfo == OrElse(postData.value.pattern_info, "") && patternUrl == OrElse(postData.value.pattern_url, "") &&
        existingImages == postData.value.images
      ensures mode == Edit && postData.Some? ==>
        var split := SplitTodayLog(postData.value.knitting_logs, now, utcOffset);
        existingLogs == split.existingLogs && todayLogId == split.todayLogId && knittingLogs == split.knittingLogs
    {
      if !(mode == Edit && postData.Some?) {
        return;
      }
      var pd := postData.value;
      title, content, yarnInfo := pd.title, OrElse(pd.content, ""), OrElse(pd.yarn_info, "");
      needleInfo, patternInfo, patternUrl := OrElse(pd.needleInfo, ""), OrElse(pd.pattern_info, ""), OrElse(pd.pattern_url, "");
      existingImages := pd.images;
      var split := SplitTodayLog(pd.knitting_logs, now, utcOffset);
      existingLogs, todayLogId, knittingLogs := split.existingLogs, split.todayLogId, split.knittingLogs;
    }

    /** The `selectionLimit` passed to the image picker. */
    function SelectionLimit(): (limit: int)
      reads this
      ensures limit + |images| + |existingImages| == MAX_IMAGES
    {
      MAX_IMAGES - (|images| + |existingImages|)
    }

    /** `handleSelectImages`, for the assets the picker returned. */
    method SelectImages(assets: seq<PickedImage>)
      modifies this`images
      ensures images == old(images) + assets
      ensures |assets| <= old(SelectionLimit()) ==> |images| + |existingImages| <= MAX_IMAGES
    {
      images := images + assets;
    }

    /** `handleRemoveImage`. */
    method RemoveImage(index: int)
      modifies this`images
      ensures images == RemoveAt(old(images), index)
    {
      images := RemoveAt(images, index);
    }

    /** `handleRemoveExistingImage`. */
    method RemoveExistingImage(imageId: string)
      modifies this`deletedImageIds, this`existingImages
      ensures deletedImageIds == old(deletedImageIds) + [imageId]
      ensures existingImages == WithoutImage(old(existingImages), imageId)
    {
      deletedImageIds := deletedImageIds + [imageId];
      existingImages := WithoutImage(existingImages, imageId);
    }

    /** `handleLogContentChange`. */
    method LogContentChange(id: string, text: string)
      requires Valid()
      modifies this`knittingLogs
      ensures Valid()
      ensures knittingLogs == SetLogContent(old(knittingLogs), id, text)
    {
      knittingLogs := SetLogContent(knittingLogs, id, text);
    }

    /** The `onChangeText` setter of one text input. */
    method ChangeText(field: TextField, text: string)
      modifies this`title, this`content, this`yarnInfo, this`needleInfo, this`patternInfo, this`patternUrl
      ensures field == TitleField ==> title == text
      ensures field != TitleField ==> title == old(title)
      ensures field == ContentField ==> content == text
      ensures field != ContentField ==> content == old(content)
      ensures field == YarnField ==> yarnInfo == text
      ensures field != YarnField ==> yarnInfo == old(yarnInfo)
      ensures field == NeedleField ==> needleInfo == text
      ensures field != NeedleField ==> needleInfo == old(needleInfo)
      ensures field == PatternField ==> patternInfo == text
      ensures field != PatternField ==> patternInfo == old(patternInfo)
      ensures field == PatternUrlField ==> patternUrl == text
      ensures field != PatternUrlField ==> patternUrl == old(patternUrl)
    {
      match field {
        case TitleField => title := text;
        case ContentField => content := text;
        case YarnField => yarnInfo := text;
        case NeedleField => needleInfo := text;
        case PatternField => patternInfo := text;
        case PatternUrlField => patternUrl := text;
      }
    }

    /** The columns the form currently holds. */
    function Fields(): (f: PostFields)
      reads this
      ensures f == FormFields(title, content, yarnInfo, needleInfo, patternInfo, patternUrl)
    {
      FormFields(title, content, yarnInfo, needleInfo, patternInfo, patternUrl)
    }

    /** Whether the post row is updated rather than inserted. */
    predicate UpdatesPost()
      reads this
    {
      mode == Edit && postData.Some?
    }

    /** The post the images and logs are saved under. */
    function SavedPostId(insertedId: string): string
      reads this
    {
      if UpdatesPost() then postData.value.id else insertedId
    }

    /** The post write, followed in edit mode by the delete of removed images. */
    function PostWrites(userId: string, now: nat): (ws: seq<Write>)
      reads this
      ensures |ws| >= 1
      ensures UpdatesPost() ==> ws[0] == UpdatePost(postData.value.id, Fields(), now)
      ensures UpdatesPost() ==> ws[1..] == if |deletedImageIds| > 0 then [DeleteImages(deletedImageIds)] else []
      ensures !UpdatesPost() ==> ws == [InsertPost(userId, Fields())]
    {
      if UpdatesPost() then
        [UpdatePost(postData.value.id, Fields(), now)]
          + (if |deletedImageIds| > 0 then [DeleteImages(deletedImageIds)] else [])
      else
        [InsertPost(userId, Fields())]
    }

    /** `handleSubmit`. `userId` is the user `getUser` returns, `postWriteOk`
        whether the post update or insert succeeds, `insertedId` the id of an
        inserted post, `clock` and `outcomes` the time and result of each
        upload, and `imagesOk` whether the image insert succeeds. The log
        writes report errors only to the console, so they are always all issued. */
    method Submit(userId: Option<string>, postWriteOk: bool, insertedId: string, now: nat,
                  clock: nat -> nat, outcomes: nat -> UploadResponse, imagesOk: bool)
      returns (outcome: SubmitOutcome, writes: seq<Write>, uploads: seq<UploadRequest>)
      requires Valid()
      ensures outcome == BlankTitle <==> IsBlank(title)
      ensures outcome == NotLoggedIn <==> !IsBlank(title) && userId.None?
      ensures outcome in {BlankTitle, NotLoggedIn} ==> writes == [] && uploads == []
      ensures outcome == SaveFailed ==>
        userId.Some? && (!postWriteOk ==> writes == PostWrites(userId.value, now)[..1] && uploads == [])
      ensures outcome == SaveFailed && userId.Some? && postWriteOk ==>
        !imagesOk && writes == PostWrites(userId.value, now) + UploadWrites(images, outcomes, SavedPostId(insertedId), existingImages) &&
        |UploadWrites(images, outcomes, SavedPostId(insertedId), existingImages)| == 1
      ensures outcome == Saved ==> userId.Some? && postWriteOk
      ensures outcome == Saved && userId.Some? ==>
        writes == PostWrites(userId.value, now) + UploadWrites(images, outcomes, SavedPostId(insertedId), existingImages)
                  + LogWrites(ValidLogs(knittingLogs), mode, todayLogId, SavedPostId(insertedId))
      ensures outcome == Saved ==> imagesOk || |UploadWrites(images, outcomes, SavedPostId(insertedId), existingImages)| == 0
      ensures outcome == Saved || (outcome == SaveFailed && postWriteOk) ==>
        |uploads| == |images| &&
        forall k :: 0 <= k < |images| ==>
          uploads[k] == RequestFor(images[k].uri, POST_IMAGES_BUCKET, SavedPostId(insertedId), clock(k))
    {
      writes, uploads := [], [];
      if IsBlank(title) {
        return BlankTitle, writes, uploads;
      }
      var validLogs := ValidLogs(knittingLogs);
      if userId.None? {
        return NotLoggedIn, writes, uploads;
      }
      // the update (followed by the delete of removed images) or the insert
      var postWrites := PostWrites(userId.value, now);
      if !postWriteOk {
        return SaveFailed, postWrites[..1], uploads;
      }
      writes := postWrites;
      var currentPostId := SavedPostId(insertedId);
      if |images| > 0 {
        var imageUrls;
        imageUrls, uploads := UploadMultipleImages(images, POST_IMAGES_BUCKET, currentPostId, clock, outcomes);
        var imageWrites := ImageWrites(currentPostId, imageUrls, AsWrittenStartOrder(existingImages));
        writes := writes + imageWrites;
        if |imageWrites| > 0 && !imagesOk {
          return SaveFailed, writes, uploads;
        }
      }
      var logWrites := SaveLogs(validLogs, mode, todayLogId, currentPostId);
      assert writes == postWrites + UploadWrites(images, outcomes, currentPostId, existingImages);
      writes := writes + logWrites;
      return Saved, writes, uploads;
    }
  }
}
