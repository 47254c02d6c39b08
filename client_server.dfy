/**
 * Properties that span the server routes and the two client components: what the chat screen
 * shows live against what it shows after a reload, and what the profile editor's form makes the
 * update route do.
 */
module ClientServer {
  import opened Common
  import opened Text
  import opened Rows
  import opened Tables
  import opened Pictures
  import opened UploadFilter
  import opened Server
  import opened ChatClient
  import opened ProfileForm

  /** A stored picture as the update route writes it: none, or the uploads URL of a plain file name. */
  predicate StoredAsUpload(p: Option<string>) {
    !Truthy(p) ||
    (|UploadsBase| < |p.value| && StartsWith(p.value, UploadsBase) && '/' !in p.value[|UploadsBase|..])
  }

  /** For such a picture the broadcast and the (corrected) history normaliser agree. */
  lemma UploadPicturesAgree(p: Option<string>)
    requires StoredAsUpload(p)
    ensures HistoryPicture(p) == BroadcastPicture(p)
  {
    if Truthy(p) {
      var f := p.value[|UploadsBase|..];
      assert p.value == UploadedPictureUrl(f);
      HistoryMatchesBroadcastForUrl(f);
    }
  }

  /** Every picture the update route stores has that shape, when the file's name has no '/'. */
  lemma UpdateStoresUploadShape(upload: Option<Upload>, stamp: nat)
    requires upload.Some? ==> '/' !in upload.value.originalName
    ensures StoredAsUpload(StoredPicture(upload, stamp))
  {
    if upload.Some? {
      var f := StoredFilename(stamp, upload.value.originalName);
      var d := Decimal(stamp);
      assert '/' !in f by {
        forall i | 0 <= i < |f| ensures f[i] != '/' {
          if i < |d| { assert f[i] == d[i]; }
          else if i > |d| { assert f[i] == upload.value.originalName[i - |d| - 1]; }
        }
      }
      var v := StoredPicture(upload, stamp).value;
      assert v == UploadsBase + f;
      assert v[|UploadsBase|..] == f;
    }
  }

  /**
   * The live path and the reload path of the chat screen agree. If the open chat between `me`
   * and `friend` shows the listing `GET /messages/:friendId` gives, then the broadcast of a new
   * message between them, passed through the `receiveMessage` updater, gives the listing the
   * route gives once the message is stored. `m.id` is the serial's next value, above every
   * existing id, and the two parties' pictures have the shape the update route stores.
   * This holds of the listing with the corrected picture normaliser `HistoryPicture`, which
   * `History` uses; the route as written lists these pictures with the host twice
   * (`HistoryPictureAsWrittenDoublesHost`). `History` lists messages with equal `sent_at` in
   * table order, so the new message comes last among its ties.
   */
  lemma LiveViewMatchesReload(users: seq<User>, ms: seq<Message>, me: int, friend: PublicUser, m: Message)
    requires forall x :: x in ms ==> x.id < m.id
    requires Between(m, me, friend.id)
    requires Joined(users, m).Some?
    requires StoredAsUpload(Joined(users, m).value.senderPicture)
    requires StoredAsUpload(Joined(users, m).value.receiverPicture)
    ensures ReceiveMessage(History(users, ms, me, friend.id), BroadcastView(Joined(users, m).value), me, Some(friend))
      == History(users, ms + [m], me, friend.id)
  {
    var h := Joined(users, m).value;
    var before := History(users, ms, me, friend.id);
    UploadPicturesAgree(h.senderPicture);
    UploadPicturesAgree(h.receiverPicture);
    assert BroadcastView(h) == HistoryView(h);
    HistoryExact(users, ms, me, friend.id);
    assert !HasId(before, h.id) by {
      forall x | x in before ensures x.id != h.id {
        assert Core(x) in ms;
      }
    }
    assert Relevant(BroadcastView(h), me, Some(friend));
    HistoryAppend(users, ms, m, me, friend.id);
  }

  /**
   * Saving the profile editor unchanged rewrites nothing: the form built from a user's own row
   * sends back its truthy values only, and the update leaves the row as it was.
   */
  lemma UnchangedSaveKeepsRow(u: User)
    ensures var form := FormEntries(InitialProfile(UserProps(Some(u.username), u.status, u.profilePicture)), None);
      SetProfile(u, FieldValue(form, "username"), FieldValue(form, "status"), None) == u
  {
    var p := InitialProfile(UserProps(Some(u.username), u.status, u.profilePicture));
    FormRoundTrip(p, None);
  }

  /**
   * The two upload checks disagree: the editor takes any image type but HEIC, while multer's
   * filter takes only types containing jpeg, jpg or png, so a GIF passes the first and fails the
   * second.
   */
  lemma GifAcceptedByClientRefusedByServer(stem: string, size: nat)
    requires stem != "" && '/' !in stem
    ensures CheckImage(FileInfo(stem + ".gif", "image/gif")) == ImageAccepted
    ensures UploadRejected(Some(Upload(stem + ".gif", "image/gif", size)))
  {
    var name := stem + ".gif";
    var l := ToLower(name);
    assert l[|l| - 1] == LowerChar('f') == 'f';
    assert !EndsWith(l, ".heic") by {
      assert |l| >= 5 ==> l[|l| - 5..][4] == l[|l| - 1];
    }
    assert StartsWith("image/gif", "image/");
    assert "image/gif" != "image/heic" by { assert |"image/gif"| != |"image/heic"|; }
    var s := "image/gif";
    assert !MatchesImageType(s) by {
      assert forall k :: 0 <= k < |s| ==> s[k] != 'j' && s[k] != 'p';
      forall i: nat | i <= |s|
        ensures !OccursAt(s, "jpeg", i) && !OccursAt(s, "jpg", i) && !OccursAt(s, "png", i)
      {
        if i + 3 <= |s| {
          assert s[i..i + 3][0] == s[i];
        }
        if i + 4 <= |s| {
          assert s[i..i + 4][0] == s[i];
        }
      }
    }
  }
}
