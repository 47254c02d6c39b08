/** The profile-picture URL normalisers of the routes in backend/server.js. */
module Pictures {
  import opened Common
  import opened Text

  const Host := "http://localhost:8001"
  const UploadsBase := "http://localhost:8001/uploads/"

  /** The URL `PUT /profile/update` stores for an upload saved as `filename`. */
  function UploadedPictureUrl(filename: string): string {
    UploadsBase + filename
  }

  /** The file name multer's disk storage gives an upload: `Date.now() + '-' + originalname`. */
  function StoredFilename(stamp: nat, originalName: string): string {
    Decimal(stamp) + "-" + originalName
  }

  /** `GET /profile`: a truthy picture not starting with "http" gets the host put in front. */
  function ProfilePicture(p: Option<string>): (r: Option<string>)
    ensures !Truthy(p) ==> r == p
    ensures Truthy(p) ==> r.Some? && StartsWith(r.value, "http")
    ensures Truthy(p) && StartsWith(p.value, "http") ==> r == p
    ensures Truthy(p) && !StartsWith(p.value, "http") ==> r == Some(Host + p.value)
  {
    if Truthy(p) && !StartsWith(p.value, "http") then Some(Host + p.value) else p
  }

  /** `POST /messages`: a truthy picture becomes the uploads URL of its last path segment, else null. */
  function BroadcastPicture(p: Option<string>): (r: Option<string>)
    ensures !Truthy(p) ==> r == None
    ensures Truthy(p) ==> r == Some(UploadsBase + LastSegment(p.value))
  {
    if Truthy(p) then Some(UploadsBase + LastSegment(p.value)) else None
  }

  /**
   * `GET /friends/:userId`: a truthy picture not starting with "http" becomes the uploads URL
   * of its last path segment; anything else (a URL, `null`, `''`) is kept.
   */
  function FriendPicture(p: Option<string>): (r: Option<string>)
    ensures !Truthy(p) ==> r == p
    ensures Truthy(p) && StartsWith(p.value, "http") ==> r == p
    ensures Truthy(p) && !StartsWith(p.value, "http") ==> r == Some(UploadsBase + LastSegment(p.value))
  {
    if Truthy(p) && !StartsWith(p.value, "http") then Some(UploadsBase + LastSegment(p.value)) else p
  }

  lemma UploadsBaseIsHttp(seg: string)
    ensures StartsWith(UploadsBase + seg, "http")
  {
    assert (UploadsBase + seg)[..4] == "http";
  }

  lemma HostIsHttp(s: string)
    ensures StartsWith(Host + s, "http")
  {
    assert (Host + s)[..4] == "http";
  }

  lemma UploadsBaseEndsWithSlash()
    ensures UploadsBase != [] && UploadsBase[|UploadsBase| - 1] == '/'
  {
  }

  /** Normalising a friend's picture twice is normalising it once. */
  lemma FriendPictureIdempotent(p: Option<string>)
    ensures FriendPicture(FriendPicture(p)) == FriendPicture(p)
  {
    if Truthy(p) && !StartsWith(p.value, "http") {
      UploadsBaseIsHttp(LastSegment(p.value));
    }
  }

  /** The broadcast form is a fixed point as well: its last segment is the segment it was built from. */
  lemma BroadcastPictureIdempotent(p: Option<string>)
    ensures BroadcastPicture(BroadcastPicture(p)) == BroadcastPicture(p)
  {
    if Truthy(p) {
      UploadsBaseEndsWithSlash();
      LastSegmentAfterSlash(UploadsBase, LastSegment(p.value));
    }
  }

  /** `GET /messages/:friendId` as written: the host goes in front of every truthy picture. */
  function HistoryPictureAsWritten(p: Option<string>): (r: Option<string>)
    ensures !Truthy(p) ==> r == None
    ensures Truthy(p) ==> r == Some(Host + p.value)
  {
    if Truthy(p) then Some(Host + p.value) else None
  }

  /**
   * A picture stored by `PUT /profile/update` is already a full URL, so the history
   * route as written serves it with the host twice, while the broadcast of the same message
   * serves it correctly.
   */
  lemma HistoryPictureAsWrittenDoublesHost()
    ensures var stored := UploadedPictureUrl("1-a.png");
      HistoryPictureAsWritten(Some(stored)) == Some(Host + UploadsBase + "1-a.png")
      && BroadcastPicture(Some(stored)) == Some(UploadsBase + "1-a.png")
      && HistoryPictureAsWritten(Some(stored)) != BroadcastPicture(Some(stored))
  {
    var stored := UploadedPictureUrl("1-a.png");
    UploadsBaseEndsWithSlash();
    LastSegmentAfterSlash(UploadsBase, "1-a.png");
    assert Host + stored == Host + UploadsBase + "1-a.png";
    assert (Host + UploadsBase + "1-a.png")[21] == 'h';
  }

  /** The history normaliser as intended: like `GET /profile`, a value that is already a URL is kept. */
  function HistoryPicture(p: Option<string>): (r: Option<string>)
    ensures !Truthy(p) ==> r == None
    ensures Truthy(p) && StartsWith(p.value, "http") ==> r == p
    ensures Truthy(p) && !StartsWith(p.value, "http") ==> r == Some(Host + p.value)
  {
    if !Truthy(p) then None
    else if StartsWith(p.value, "http") then p
    else Some(Host + p.value)
  }

  lemma HistoryPictureIdempotent(p: Option<string>)
    ensures HistoryPicture(HistoryPicture(p)) == HistoryPicture(p)
  {
    if Truthy(p) && !StartsWith(p.value, "http") {
      HostIsHttp(p.value);
    }
  }

  /** With the corrected normaliser, history and broadcast agree on the full URL the update route stores. */
  lemma HistoryMatchesBroadcastForUrl(filename: string)
    requires filename != "" && '/' !in filename
    ensures HistoryPicture(Some(UploadedPictureUrl(filename))) == BroadcastPicture(Some(UploadedPictureUrl(filename)))
  {
    UploadsBaseEndsWithSlash();
    UploadsBaseIsHttp(filename);
    LastSegmentAfterSlash(UploadsBase, filename);
  }

  /** ... and on a picture stored as a path under "/uploads/". */
  lemma HistoryMatchesBroadcastForPath(filename: string)
    requires filename != "" && '/' !in filename
    ensures HistoryPicture(Some("/uploads/" + filename)) == BroadcastPicture(Some("/uploads/" + filename))
  {
    var rel := "/uploads/" + filename;
    assert rel[0] == '/';
    assert !StartsWith(rel, "http") by { assert rel[..4][0] != "http"[0]; }
    LastSegmentAfterSlash("/uploads/", filename);
    assert Host + "/uploads/" == UploadsBase;
    assert Host + rel == (Host + "/uploads/") + filename;
  }
}
