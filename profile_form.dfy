/** The profile editor of frontend/src/components/ProfileComponent.jsx. */
module ProfileForm {
  import opened Common
  import opened Text
  import opened Rows
  import opened UpdateQuery

  const NotAnImage := "Please upload an image file (PNG, JPG, JPEG)"
  const HeicUnsupported := "HEIC format is not supported. Please upload a JPG or PNG file."
  const UpdateFailedMessage := "Failed to update profile"

  /** The `user` prop: the fields the editor reads, each possibly missing. */
  datatype UserProps = UserProps(username: Option<string>, status: Option<string>, profilePicture: Option<string>)

  /** The `profile` state: each field is the text of an input. */
  datatype ProfileFields = ProfileFields(username: string, status: string, profilePicture: string)

  /** A chosen file: its `name` and browser-reported `type`. */
  datatype FileInfo = FileInfo(name: string, mimeType: string)

  /** `x || ''`. */
  function OrEmpty(v: Option<string>): (r: string)
    ensures Truthy(v) ==> r == v.value
    ensures !Truthy(v) ==> r == ""
    ensures r != "" <==> Truthy(v)
  {
    if Truthy(v) then v.value else ""
  }

  /** The initial `profile`: a missing or empty field of the user becomes ''. */
  function InitialProfile(u: UserProps): (p: ProfileFields)
    ensures p.username == OrEmpty(u.username) && p.status == OrEmpty(u.status)
    ensures p.profilePicture == OrEmpty(u.profilePicture)
  {
    ProfileFields(OrEmpty(u.username), OrEmpty(u.status), OrEmpty(u.profilePicture))
  }

  datatype ImageCheck = ImageAccepted | ImageRejected(message: string)

  /** The checks of `handleImageChange`, in order: an image type, and not HEIC by type or by name. */
  function CheckImage(f: FileInfo): (c: ImageCheck)
    ensures !StartsWith(f.mimeType, "image/") ==> c == ImageRejected(NotAnImage)
    ensures StartsWith(f.mimeType, "image/") && (f.mimeType == "image/heic" || EndsWith(ToLower(f.name), ".heic")) ==>
      c == ImageRejected(HeicUnsupported)
    ensures c == ImageAccepted <==>
      StartsWith(f.mimeType, "image/") && f.mimeType != "image/heic" && !EndsWith(ToLower(f.name), ".heic")
  {
    if !StartsWith(f.mimeType, "image/") then ImageRejected(NotAnImage)
    else if f.mimeType == "image/heic" || EndsWith(ToLower(f.name), ".heic") then ImageRejected(HeicUnsupported)
    else ImageAccepted
  }

  /** The name test is case-blind: "IMG.HEIC" is refused even under another image type. */
  lemma HeicNameRefused(stem: string, mimeType: string)
    requires StartsWith(mimeType, "image/")
    ensures CheckImage(FileInfo(stem + ".HEIC", mimeType)) == ImageRejected(HeicUnsupported)
  {
    var l := ToLower(stem + ".HEIC");
    var n := |stem|;
    assert l[n] == LowerChar('.') == '.';
    assert l[n + 1] == LowerChar('H') == 'h';
    assert l[n + 2] == LowerChar('E') == 'e';
    assert l[n + 3] == LowerChar('I') == 'i';
    assert l[n + 4] == LowerChar('C') == 'c';
    assert l[|l| - 5..] == ".heic";
  }

  datatype FormValue = TextField(text: string) | FileField(file: FileInfo)

  /** The `FormData` `handleSubmit` builds: username and status when non-empty, then the chosen file. */
  function FormEntries(p: ProfileFields, imageFile: Option<FileInfo>): (form: seq<(string, FormValue)>)
    ensures |form| <= 3
    ensures forall i :: 0 <= i < |form| ==> form[i].0 in Columns
    ensures forall i, j :: 0 <= i < j < |form| ==> Rank(form[i].0) < Rank(form[j].0)
  {
    (if p.username != "" then [("username", TextField(p.username))] else [])
    + (if p.status != "" then [("status", TextField(p.status))] else [])
    + (if imageFile.Some? then [("profile_picture", FileField(imageFile.value))] else [])
  }

  /** The text field `key` as the server's `req.body` holds it, or nothing when it was not sent. */
  function FieldValue(form: seq<(string, FormValue)>, key: string): Option<string> {
    if form == [] then None
    else if form[0].0 == key && form[0].1.TextField? then Some(form[0].1.text)
    else FieldValue(form[1..], key)
  }

  /** The file sent under `key`, as multer's `req.file` holds it. */
  function FileOf(form: seq<(string, FormValue)>, key: string): Option<FileInfo> {
    if form == [] then None
    else if form[0].0 == key && form[0].1.FileField? then Some(form[0].1.file)
    else FileOf(form[1..], key)
  }

  /**
   * What the server reads back from the form: username and status exactly when they are
   * non-empty, and the chosen file.
   */
  lemma FormRoundTrip(p: ProfileFields, imageFile: Option<FileInfo>)
    ensures FieldValue(FormEntries(p, imageFile), "username") == if p.username != "" then Some(p.username) else None
    ensures FieldValue(FormEntries(p, imageFile), "status") == if p.status != "" then Some(p.status) else None
    ensures FileOf(FormEntries(p, imageFile), "profile_picture") == imageFile
  {
    var a := if p.username != "" then [("username", TextField(p.username))] else [];
    var b := if p.status != "" then [("status", TextField(p.status))] else [];
    var c := if imageFile.Some? then [("profile_picture", FileField(imageFile.value))] else [];
    var form := FormEntries(p, imageFile);
    assert form == a + b + c;
    assert FieldValue(c, "username") == None && FieldValue(c, "status") == None;
    assert FileOf(c, "profile_picture") == imageFile;
    assert FieldValue(b + c, "username") == None by {
      if p.status != "" { assert (b + c)[1..] == c; } else { assert b + c == c; }
    }
    assert FieldValue(b + c, "status") == if p.status != "" then Some(p.status) else None by {
      if p.status == "" { assert b + c == c; }
    }
    assert FileOf(b + c, "profile_picture") == imageFile by {
      if p.status != "" { assert (b + c)[1..] == c; } else { assert b + c == c; }
    }
    if p.username != "" {
      assert form[1..] == b + c;
    } else {
      assert form == b + c;
    }
  }

  /** A field the server reads from the form is truthy exactly when it was sent. */
  lemma SubmittedFieldsTruthy(p: ProfileFields, imageFile: Option<FileInfo>)
    ensures Truthy(FieldValue(FormEntries(p, imageFile), "username")) <==> p.username != ""
    ensures Truthy(FieldValue(FormEntries(p, imageFile), "status")) <==> p.status != ""
  {
    FormRoundTrip(p, imageFile);
  }

  /** A form with empty username and status and no file leaves the server's `UPDATE` nothing to set. */
  lemma EmptyFormSetsNothing(p: ProfileFields)
    requires p.username == "" && p.status == ""
    ensures Assignments(FieldValue(FormEntries(p, None), "username"), FieldValue(FormEntries(p, None), "status"), None) == []
  {
    FormRoundTrip(p, None);
  }

  /** The server's answer to `PUT /profile/update`, or the message of an exception on the way. */
  datatype SubmitResponse = Answered(reply: Reply<PublicUser>) | Threw(message: string)

  /** `onUpdate(profile)` followed by `onClose()`, or an error shown in the form. */
  datatype SubmitOutcome = Saved(profile: PublicUser) | ShowError(message: string)

  function Outcome(r: SubmitResponse): (o: SubmitOutcome)
    ensures o.Saved? <==> r.Answered? && r.reply.Ok?
    ensures o.Saved? ==> o.profile == r.reply.body
    ensures o.ShowError? ==> o.message != ""
    ensures r.Answered? && r.reply.Fail? && r.reply.error != "" ==> o == ShowError(r.reply.error)
    ensures r.Threw? && r.message != "" ==> o == ShowError(r.message)
    ensures r.Answered? && r.reply.Fail? && r.reply.error == "" ==> o == ShowError(UpdateFailedMessage)
    ensures r.Threw? && r.message == "" ==> o == ShowError(UpdateFailedMessage)
  {
    match r
    case Answered(Ok(_, body)) => Saved(body)
    case Answered(Fail(_, e)) => ShowError(if e != "" then e else UpdateFailedMessage)
    case Threw(m) => ShowError(if m != "" then m else UpdateFailedMessage)
  }

  /** What the editor holds between renders. */
  class ProfileEditor {
    var profile: ProfileFields
    var imageFile: Option<FileInfo>
    var error: string

    constructor (user: UserProps)
      ensures profile == InitialProfile(user) && imageFile == None && error == ""
    {
      profile := InitialProfile(user);
      imageFile := None;
      error := "";
    }

    /**
     * `handleImageChange` with the first selected file, if any. `preview` says whether a
     * FileReader was started for it.
     */
    method HandleImageChange(file: Option<FileInfo>) returns (preview: bool)
      modifies this
      ensures file.None? ==> !preview && unchanged(this)
      ensures file.Some? && CheckImage(file.value).ImageRejected? ==>
        !preview && error == CheckImage(file.value).message && imageFile == old(imageFile) && profile == old(profile)
      ensures file.Some? && CheckImage(file.value) == ImageAccepted ==>
        preview && imageFile == file && error == old(error) && profile == old(profile)
      ensures imageFile.Some? ==> imageFile == old(imageFile) || imageFile == file
    {
      if file.None? {
        return false;
      }
      match CheckImage(file.value)
      case ImageRejected(m) =>
        error := m;
        preview := false;
      case ImageAccepted =>
        imageFile := file;
        preview := true;
    }

    /** The FileReader's `onloadend`: the preview replaces the shown picture. */
    method PreviewLoaded(dataUrl: string)
      modifies this
      ensures profile == old(profile).(profilePicture := dataUrl)
      ensures imageFile == old(imageFile) && error == old(error)
    {
      profile := profile.(profilePicture := dataUrl);
    }

    method EditUsername(value: string)
      modifies this
      ensures profile == old(profile).(username := value)
      ensures imageFile == old(imageFile) && error == old(error)
    {
      profile := profile.(username := value);
    }

    method EditStatus(value: string)
      modifies this
      ensures profile == old(profile).(status := value)
      ensures imageFile == old(imageFile) && error == old(error)
    {
      profile := profile.(status := value);
    }

    /**
     * `handleSubmit`: `form` is what goes to the server, `response` what comes back, and
     * `saved` the profile passed to `onUpdate` before `onClose`, if any.
     */
    method HandleSubmit(response: SubmitResponse) returns (form: seq<(string, FormValue)>, saved: Option<PublicUser>)
      modifies this
      ensures form == FormEntries(old(profile), old(imageFile))
      ensures Outcome(response).Saved? ==> saved == Some(Outcome(response).profile) && error == old(error)
      ensures Outcome(response).ShowError? ==> saved == None && error == Outcome(response).message
      ensures profile == old(profile) && imageFile == old(imageFile)
    {
      form := [];
      if profile.username != "" {
        form := form + [("username", TextField(profile.username))];
      }
      if profile.status != "" {
        form := form + [("status", TextField(profile.status))];
      }
      if imageFile.Some? {
        form := form + [("profile_picture", FileField(imageFile.value))];
      }
      match Outcome(response)
      case Saved(p) =>
        saved := Some(p);
      case ShowError(m) =>
        saved := None;
        error := m;
    }
  }
}
