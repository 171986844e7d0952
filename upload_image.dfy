/** src/lib/uploadImage.tsx: turning a local image URI into a storage upload,
    and uploading several images in order.

    The file read and the storage upload are one remote step whose outcome
    (`UploadResponse`) is an input; `Date.now()` is the input `now`. */
module UploadImage {
  import opened Wrappers
  import opened Strings
  import opened Seqs

  const DEFAULT_EXTENSION: string := "jpg"
  const FILE_SCHEME: string := "file://"
  const IMAGE_MIME_PREFIX: string := "image/"

  /** `uri.split('.').pop()?.toLowerCase() || 'jpg'`: the text after the last
      dot, lower-cased, or `jpg` when that text is empty. */
  function FileExtension(uri: string): (ext: string)
    ensures ext != "" && '.' !in ext
    ensures LastPiece(uri, '.') != "" ==> ext == ToLowerAscii(LastPiece(uri, '.'))
    ensures LastPiece(uri, '.') == "" ==> ext == DEFAULT_EXTENSION
    ensures '.' !in uri && uri != "" ==> ext == ToLowerAscii(uri)
    ensures (uri == "" || uri[|uri| - 1] == '.') ==> ext == DEFAULT_EXTENSION
  {
    LastPieceFacts(uri, '.');
    LowerKeepsOthers(LastPiece(uri, '.'), '.');
    var last := ToLowerAscii(LastPiece(uri, '.'));
    if last != "" then last else DEFAULT_EXTENSION
  }

  /** The storage path `<folderPath>/<now>.<ext>`. */
  function FilePath(uri: string, folderPath: string, now: nat): string {
    folderPath + "/" + NatToString(now) + "." + FileExtension(uri)
  }

  /** The `contentType` option `image/<ext>`. */
  function ContentType(uri: string): string {
    IMAGE_MIME_PREFIX + FileExtension(uri)
  }

  /** Everything `uploadImage` derives from its arguments before going remote. */
  datatype UploadRequest = UploadRequest(
    bucket: string,
    path: string,
    contentType: string,
    localPath: string,
    upsert: bool)

  function RequestFor(uri: string, bucket: string, folderPath: string, now: nat): (req: UploadRequest)
    ensures req.bucket == bucket && !req.upsert
    ensures req.path == folderPath + "/" + NatToString(now) + "." + FileExtension(uri)
    ensures req.contentType == IMAGE_MIME_PREFIX + FileExtension(uri)
    ensures StartsWith(uri, FILE_SCHEME) ==> req.localPath == uri[|FILE_SCHEME|..]
  {
    var localPath :=
      if StartsWith(uri, FILE_SCHEME) then
        ReplaceFirstAtStart(uri, FILE_SCHEME, ""); ReplaceFirst(uri, FILE_SCHEME, "")
      else ReplaceFirst(uri, FILE_SCHEME, "");
    UploadRequest(bucket, FilePath(uri, folderPath, now), ContentType(uri), localPath, false)
  }

  /** The extension the storage path ends with is the one the content type names. */
  lemma PathAndContentTypeAgree(uri: string, bucket: string, folderPath: string, now: nat)
    ensures var req := RequestFor(uri, bucket, folderPath, now);
      LastPiece(req.path, '.') == req.contentType[|IMAGE_MIME_PREFIX|..] == FileExtension(uri)
  {
    var ext := FileExtension(uri);
    var req := RequestFor(uri, bucket, folderPath, now);
    assert req.path == (folderPath + "/" + NatToString(now)) + ['.'] + ext;
    LastPieceAfterSeparator(folderPath + "/" + NatToString(now), '.', ext);
  }

  /** What the file read, the storage upload and `getPublicUrl` come to. */
  datatype UploadResponse =
    | Stored(publicUrl: string)   // upload accepted; the public URL of the object
    | Rejected                    // `upload` returned an error
    | Threw                       // reading the file or uploading threw

  /** `uploadImage`: the public URL, or `null` on any failure; it never throws. */
  function UploadResult(response: UploadResponse): (url: Option<string>)
    ensures url.Some? <==> response.Stored?
    ensures url.Some? ==> url.value == response.publicUrl
  {
    match response
    case Stored(u) => Some(u)
    case Rejected => None
    case Threw => None
  }

  /** One `{uri}` entry of the images array. */
  datatype PickedImage = PickedImage(uri: string)

  /** The URLs a run of `uploadImage` results contributes: the truthy ones, in order. */
  function Collected(results: seq<Option<string>>): (urls: seq<string>)
    ensures |urls| <= |results|
    ensures forall k :: 0 <= k < |urls| ==> urls[k] != ""
  {
    if results == [] then []
    else
      var last := results[|results| - 1];
      Collected(results[..|results| - 1]) + (if Truthy(last) then [last.value] else [])
  }

  /** Collecting the results of two consecutive runs is collecting each in turn. */
  lemma {:induction false} CollectedConcat(a: seq<Option<string>>, b: seq<Option<string>>)
    ensures Collected(a + b) == Collected(a) + Collected(b)
    decreases |b|
  {
    if b == [] {
      assert a + b == a;
    } else {
      CollectedConcat(a, b[..|b| - 1]);
      assert (a + b)[..|a + b| - 1] == a + b[..|b| - 1];
    }
  }

  /** When every upload succeeds, every URL comes back, in input order. */
  lemma {:induction false} CollectedAllSucceeded(results: seq<Option<string>>)
    requires forall k :: 0 <= k < |results| ==> Truthy(results[k])
    ensures |Collected(results)| == |results|
    ensures forall k :: 0 <= k < |results| ==> Some(Collected(results)[k]) == results[k]
  {
    if results != [] {
      CollectedAllSucceeded(results[..|results| - 1]);
    }
  }

  /** Every collected URL is some successful result, and no failure contributes. */
  lemma {:induction false} CollectedFromResults(results: seq<Option<string>>)
    ensures forall u :: u in Collected(results) ==> Some(u) in results
  {
    if results != [] {
      var init := results[..|results| - 1];
      CollectedFromResults(init);
      forall u | u in Collected(results) ensures Some(u) in results {
        if u in Collected(init) {
          assert Some(u) in init;
          var k :| 0 <= k < |init| && init[k] == Some(u);
          assert results[k] == Some(u);
        }
      }
    }
  }

  /** Collecting one more result appends its URL when it has one. */
  lemma CollectedStep(results: seq<Option<string>>, k: nat)
    requires k < |results|
    ensures Collected(results[..k + 1]) ==
            Collected(results[..k]) + (if Truthy(results[k]) then [results[k].value] else [])
  {
    assert results[..k + 1][..k] == results[..k];
  }

  /** The result of each `uploadImage` call of the loop, for the outcomes the storage gives. */
  function UploadAll(images: seq<PickedImage>, outcomes: nat -> UploadResponse): (results: seq<Option<string>>)
    ensures |results| == |images|
    ensures forall k :: 0 <= k < |images| ==> results[k] == UploadResult(outcomes(k))
  {
    seq(|images|, k requires 0 <= k < |images| => UploadResult(outcomes(k)))
  }

  /** The request of each `uploadImage` call of the loop, the k-th at time `clock(k)`. */
  function Requests(images: seq<PickedImage>, bucket: string, folderPath: string, clock: nat -> nat)
    : (reqs: seq<UploadRequest>)
    ensures |reqs| == |images|
    ensures forall k :: 0 <= k < |images| ==> reqs[k] == RequestFor(images[k].uri, bucket, folderPath, clock(k))
  {
    seq(|images|, k requires 0 <= k < |images| => RequestFor(images[k].uri, bucket, folderPath, clock(k)))
  }

  /** `uploadMultipleImages`: uploads the images one after another, the k-th at
      time `clock(k)` with outcome `outcomes(k)`, and returns the URLs of those
      that succeeded, in input order. */
  method UploadMultipleImages(images: seq<PickedImage>, bucket: string, folderPath: string,
                              clock: nat -> nat, outcomes: nat -> UploadResponse)
    returns (uploadedUrls: seq<string>, requests: seq<UploadRequest>)
    ensures uploadedUrls == Collected(UploadAll(images, outcomes))
    ensures |requests| == |images|
    ensures forall k :: 0 <= k < |images| ==> requests[k] == RequestFor(images[k].uri, bucket, folderPath, clock(k))
  {
    ghost var results := UploadAll(images, outcomes);
    ghost var planned := Requests(images, bucket, folderPath, clock);
    uploadedUrls, requests := [], [];
    for k := 0 to |images|
      invariant uploadedUrls == Collected(results[..k])
      invariant requests == planned[..k]
    {
      requests := requests + [RequestFor(images[k].uri, bucket, folderPath, clock(k))];
      PrefixStep(planned, k);
      var url := UploadResult(outcomes(k));
      assert url == results[k];
      CollectedStep(results, k);
      if Truthy(url) {
        uploadedUrls := uploadedUrls + [url.value];
      }
    }
    assert results[..|images|] == results;
    assert planned[..|images|] == planned;
  }
}
