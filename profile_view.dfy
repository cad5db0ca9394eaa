/**
 * The profile page's two decisions: which URL the photo is loaded from, and whether
 * the page shows the viewer's own profile (and so offers the edit button).
 */
module ProfileView {

  import opened Wrappers
  import opened JsText
  import ProfileRoutes

  const DefaultBaseUrl: string := "https://www.dharwadkar.com"
  const Placeholder: string := "https://via.placeholder.com/150"

  /** `process.env.REACT_APP_BASE_URL || 'https://www.dharwadkar.com'` */
  function BaseUrl(configured: Option<string>): (url: string)
    ensures (configured.None? || configured.value == "") ==> url == DefaultBaseUrl
    ensures (configured.Some? && configured.value != "") ==> url == configured.value
  {
    if configured.None? || configured.value == "" then DefaultBaseUrl else configured.value
  }

  /**
   * `getImageUrl(photo)`. `None` stands for any value that is not a string (null,
   * undefined, an object).
   */
  function GetImageUrl(photo: Option<string>, baseUrl: string): (url: string)
    ensures url == Placeholder || StartsWith(url, baseUrl) || (photo.Some? && url == photo.value)
    ensures photo.None? ==> url == Placeholder
  {
    if photo.None? || photo.value == "" || photo.value == "[object Object]" then Placeholder
    else if StartsWith(photo.value, "/aphians/") then baseUrl + photo.value
    else if StartsWith(photo.value, "/Uploads/") then
      baseUrl + "/aphians" + ReplaceFirst(photo.value, "/Uploads/", "/uploads/")
    else photo.value
  }

  /**
   * The four outcomes, each stated by the shape of the input alone: no usable photo
   * gives the placeholder; an `/aphians/` path is served from the base URL; a legacy
   * `/Uploads/` path is served from the base URL under `/aphians` with the directory
   * lower-cased; any other string (an absolute URL, say) is used as it is.
   */
  lemma ImageUrlCases(photo: Option<string>, baseUrl: string)
    ensures (photo.None? || photo.value == "" || photo.value == "[object Object]")
      ==> GetImageUrl(photo, baseUrl) == Placeholder
    ensures photo.Some? && StartsWith(photo.value, "/aphians/")
      ==> GetImageUrl(photo, baseUrl) == baseUrl + photo.value
    ensures photo.Some? && StartsWith(photo.value, "/Uploads/")
      ==> GetImageUrl(photo, baseUrl) == baseUrl + "/aphians/uploads/" + photo.value[9..]
    ensures photo.Some? && photo.value != "" && photo.value != "[object Object]"
      && !StartsWith(photo.value, "/aphians/") && !StartsWith(photo.value, "/Uploads/")
      ==> GetImageUrl(photo, baseUrl) == photo.value
    ensures photo.Some? ==> !(StartsWith(photo.value, "/aphians/") && StartsWith(photo.value, "/Uploads/"))
  {
    if photo.Some? {
      PathCasesDisjoint(photo.value);
    }
    if photo.Some? && StartsWith(photo.value, "/Uploads/") {
      var p := photo.value;
      assert p != "[object Object]" by { assert p[0] == '/'; }
      ReplaceFirstAtStart(p, "/Uploads/", "/uploads/");
      assert "/aphians" + ("/uploads/" + p[9..]) == "/aphians/uploads/" + p[9..];
    }
  }

  /** No path starts with both `/aphians/` and `/Uploads/`. */
  lemma PathCasesDisjoint(p: string)
    ensures !(StartsWith(p, "/aphians/") && StartsWith(p, "/Uploads/"))
  {
    if StartsWith(p, "/Uploads/") {
      assert p[1] == "/Uploads/"[1];
    }
  }

  /**
   * A photo path the profile save stores is displayed from the base URL, whatever
   * upload directory the server is configured with.
   */
  lemma StoredPhotoShownFromBase(userId: int, uploadDir: string, upload: ProfileRoutes.Upload, baseUrl: string)
    ensures var stored := ProfileRoutes.LatestPhoto(userId, uploadDir, Some(upload));
      GetImageUrl(stored, baseUrl) == baseUrl + stored.value
  {
    var stored := ProfileRoutes.LatestPhoto(userId, uploadDir, Some(upload));
    PrefixOfPrefix(stored.value, "/aphians/", uploadDir);
    ImageUrlCases(stored, baseUrl);
  }

  lemma PrefixOfPrefix(s: string, a: string, b: string)
    requires StartsWith(s, a + b)
    ensures StartsWith(s, a)
  {
    assert s[..|a|] == (s[..|a + b|])[..|a|];
  }

  /** The signed-in user as the page receives it. */
  datatype User = User(id: int)

  /** `currentUser && currentUser.id === parseInt(userId, 10)` */
  function IsOwnProfile(currentUser: Option<User>, userIdParam: string): (own: bool)
    ensures own ==> currentUser.Some?
  {
    currentUser.Some? && ParseInt(userIdParam) == Int(currentUser.value.id)
  }

  /**
   * For a route parameter holding a decimal id (possibly followed by non-digits), the
   * page is the viewer's own exactly when the ids agree; a non-numeric parameter is
   * never the viewer's own profile.
   */
  lemma IsOwnProfileOfNumeral(user: User, n: int, rest: string)
    requires rest == [] || !IsDigit(rest[0])
    ensures IsOwnProfile(Some(user), IntToString(n) + rest) <==> user.id == n
  {
    ParseIntOfIntToString(n, rest);
  }

  lemma IsOwnProfileOfNaN(currentUser: Option<User>, userIdParam: string)
    requires ParseInt(userIdParam).NaN?
    ensures !IsOwnProfile(currentUser, userIdParam)
  {
  }

  /**
   * The page's own-profile test and the server's lookup guard agree: whenever the
   * page counts a parameter as the viewer's own profile, the server looks up that
   * user, as long as the viewer's id is positive.
   */
  lemma OwnProfileIsLookedUp(user: User, userIdParam: string)
    requires user.id > 0 && IsOwnProfile(Some(user), userIdParam)
    ensures ProfileRoutes.CheckUserId(userIdParam) == ProfileRoutes.Lookup(user.id)
  {
  }
}
