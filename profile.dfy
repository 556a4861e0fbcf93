/** The profile page's own rules: the name it displays, and the avatar upload
    handler with its size and type checks and its storage path. */
module Profile {
  import opened Wrappers
  import opened Text

  /** `displayName`: the profile's display name, else the local part of the
      e-mail address, else `User`; empty strings fall through like null. */
  function DisplayName(profileName: Option<string>, email: Option<string>): (name: string)
    ensures name != ""
    ensures Truthy(profileName) ==> name == profileName.value
    ensures !Truthy(profileName) && email.Some? && BeforeFirst(email.value, '@') != "" ==>
              name <= email.value && '@' !in name
              && (|name| < |email.value| ==> email.value[|name|] == '@')
    ensures !Truthy(profileName) && (email.None? || BeforeFirst(email.value, '@') == "") ==> name == "User"
  {
    if Truthy(profileName) then profileName.value
    else if email.Some? && BeforeFirst(email.value, '@') != "" then BeforeFirst(email.value, '@')
    else "User"
  }

  /** The largest accepted avatar, in bytes (1 MB). */
  const MaxAvatarBytes: nat := 1048576

  /** The accepted MIME types. */
  const AvatarTypes: seq<string> := ["image/jpeg", "image/png", "image/webp"]

  /** The selected file as the browser reports it. */
  datatype AvatarFile = AvatarFile(name: string, size: nat, mimeType: string)

  datatype AvatarCheck = AvatarOk | TooLarge | UnsupportedType

  /** The two checks the handler makes before uploading, size first. */
  function CheckAvatar(f: AvatarFile): (c: AvatarCheck)
    ensures c == TooLarge <==> f.size > MaxAvatarBytes
    ensures c == UnsupportedType <==> f.size <= MaxAvatarBytes && f.mimeType !in AvatarTypes
    ensures c == AvatarOk <==> f.size <= MaxAvatarBytes && f.mimeType in {"image/jpeg", "image/png", "image/webp"}
  {
    if f.size > MaxAvatarBytes then TooLarge
    else if f.mimeType !in AvatarTypes then UnsupportedType
    else AvatarOk
  }

  /** A file of exactly 1 MB passes the size check; one byte more does not. */
  lemma SizeBoundary(name: string, mimeType: string)
    ensures CheckAvatar(AvatarFile(name, 1048576, mimeType)) != TooLarge
    ensures CheckAvatar(AvatarFile(name, 1048577, mimeType)) == TooLarge
  {
  }

  /** `file.name.split('.').pop()`. */
  function FileExtension(fileName: string): string
  {
    AfterLast(fileName, '.')
  }

  /** `${userId}/avatar.${ext}`: the object sits in the user's own folder, is
      named `avatar`, and keeps the text after the last dot of the file name
      (the whole name when it has no dot) as its extension. */
  function AvatarPath(userId: string, fileName: string): (path: string)
    ensures userId + "/avatar." <= path
    ensures var ext := path[|userId| + 8..];
              '.' !in ext && |ext| <= |fileName|
              && fileName[|fileName| - |ext|..] == ext
              && (|ext| < |fileName| ==> fileName[|fileName| - |ext| - 1] == '.')
  {
    var ext := FileExtension(fileName);
    var path := userId + "/avatar." + ext;
    assert path[|userId| + 8..] == ext;
    path
  }

  /** How a call of the upload handler ended. */
  datatype UploadOutcome =
    | Ignored                               // no file chosen, or nobody signed in
    | RejectedTooLarge
    | RejectedType
    | UploadFailed(path: string)
    | UpdateFailed(path: string, url: string)
    | Updated(path: string, url: string)

  const TooLargeAlert: string := "ไฟล์ใหญ่เกินไป (สูงสุด 1MB)"
  const TypeAlert: string := "รองรับเฉพาะไฟล์ JPG, PNG, WEBP"
  const UploadFailedAlert: string := "อัพโหลดไม่สำเร็จ: "
  const UpdateFailedAlert: string := "อัปเดตโปรไฟล์ไม่สำเร็จ: "

  /** The profile page's avatar state and the effects of its handler: alerts
      shown, objects written to the `avatars` bucket, and values written to the
      user's `avatar_url`. */
  class AvatarUploader {
    var avatarUrl: Option<string>
    var uploading: bool
    var alerts: seq<string>
    var uploads: seq<string>
    var profileUpdates: seq<string>

    constructor(initialUrl: Option<string>)
      ensures avatarUrl == initialUrl && !uploading
      ensures alerts == [] && uploads == [] && profileUpdates == []
    {
      avatarUrl := initialUrl;
      uploading := false;
      alerts := [];
      uploads := [];
      profileUpdates := [];
    }

    /** `handleAvatarUpload`. The storage and database calls are external: their
        results are the parameters `uploadError`, `publicUrl` (what the bucket
        reports for the path) and `updateError`; `stamp` is the cache-busting
        timestamp text. */
    method HandleAvatarUpload(file: Option<AvatarFile>, userId: Option<string>,
                              uploadError: Option<string>, publicUrl: string, stamp: string,
                              updateError: Option<string>)
      returns (outcome: UploadOutcome)
      modifies this
      ensures outcome == Ignored <==> file.None? || userId.None?
      ensures outcome == RejectedTooLarge <==> file.Some? && userId.Some? && CheckAvatar(file.value) == TooLarge
      ensures outcome == RejectedType <==> file.Some? && userId.Some? && CheckAvatar(file.value) == UnsupportedType
      ensures outcome in {Ignored, RejectedTooLarge, RejectedType} ==>
                uploads == old(uploads) && profileUpdates == old(profileUpdates)
                && avatarUrl == old(avatarUrl) && uploading == old(uploading)
      ensures outcome == Ignored ==> alerts == old(alerts)
      ensures outcome == RejectedTooLarge ==> alerts == old(alerts) + [TooLargeAlert]
      ensures outcome == RejectedType ==> alerts == old(alerts) + [TypeAlert]
      ensures outcome.UploadFailed? || outcome.UpdateFailed? || outcome.Updated? ==>
                file.Some? && userId.Some? && CheckAvatar(file.value) == AvatarOk
                && outcome.path == AvatarPath(userId.value, file.value.name)
                && uploads == old(uploads) + [outcome.path] && !uploading
      ensures outcome.UploadFailed? <==> file.Some? && userId.Some? && CheckAvatar(file.value) == AvatarOk && uploadError.Some?
      ensures outcome.UploadFailed? ==>
                alerts == old(alerts) + [UploadFailedAlert + uploadError.value]
                && profileUpdates == old(profileUpdates) && avatarUrl == old(avatarUrl)
      ensures outcome.UpdateFailed? || outcome.Updated? ==>
                outcome.url == publicUrl + "?t=" + stamp
                && profileUpdates == old(profileUpdates) + [outcome.url]
      ensures outcome.UpdateFailed? ==>
                updateError.Some? && alerts == old(alerts) + [UpdateFailedAlert + updateError.value]
                && avatarUrl == old(avatarUrl)
      ensures outcome.Updated? ==>
                updateError.None? && alerts == old(alerts) && avatarUrl == Some(outcome.url)
    {
      if file.None? || userId.None? {
        return Ignored;
      }
      var f := file.value;
      if f.size > MaxAvatarBytes {
        alerts := alerts + [TooLargeAlert];
        return RejectedTooLarge;
      }
      if f.mimeType !in AvatarTypes {
        alerts := alerts + [TypeAlert];
        return RejectedType;
      }
      uploading := true;
      var path := AvatarPath(userId.value, f.name);
      uploads := uploads + [path];
      if uploadError.Some? {
        alerts := alerts + [UploadFailedAlert + uploadError.value];
        uploading := false;
        return UploadFailed(path);
      }
      var url := publicUrl + "?t=" + stamp;
      profileUpdates := profileUpdates + [url];
      if updateError.Some? {
        alerts := alerts + [UpdateFailedAlert + updateError.value];
        outcome := UpdateFailed(path, url);
      } else {
        avatarUrl := Some(url);
        outcome := Updated(path, url);
      }
      uploading := false;
    }
  }
}
