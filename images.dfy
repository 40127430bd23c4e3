/** `getImage`: turns a stored image path into the URL the page loads. */
module Images {
  import opened Wire

  const Fallback := "/fallback.jpg"
  const Origin := "http://localhost:5000"
  const UploadsPrefix := "/uploads"

  /** `getImage(ruta)`. A missing or empty path gives the fallback image; a
      path that already starts with `/uploads` is appended to the server
      origin as it is; any other path is placed under `/uploads/`. */
  function GetImage(ruta: Option<string>): (url: string)
    ensures ruta.None? || ruta == Some("") ==> url == Fallback
    ensures ruta.Some? && UploadsPrefix <= ruta.value ==> url == Origin + ruta.value
    ensures ruta.Some? && ruta.value != "" && !(UploadsPrefix <= ruta.value) ==>
              url == Origin + "/uploads/" + ruta.value
  {
    if ruta.None? || ruta.value == "" then Fallback
    else if UploadsPrefix <= ruta.value then Origin + ruta.value
    else Origin + "/uploads/" + ruta.value
  }

  /** Every URL built from a non-empty path is on the server origin, inside
      its `/uploads` directory, and ends with the path itself. */
  lemma UrlKeepsPath(ruta: string)
    requires ruta != ""
    ensures Origin <= GetImage(Some(ruta))
    ensures Origin + UploadsPrefix <= GetImage(Some(ruta))
    ensures var url := GetImage(Some(ruta));
            |ruta| <= |url| && url[|url| - |ruta|..] == ruta
  {
    var url := GetImage(Some(ruta));
    if UploadsPrefix <= ruta {
      assert url == Origin + ruta;
      assert (Origin + UploadsPrefix) == url[..|Origin + UploadsPrefix|];
    } else {
      assert url == (Origin + "/uploads/") + ruta;
      assert (Origin + UploadsPrefix) == url[..|Origin + UploadsPrefix|];
    }
  }

  /** A bare file name and the same name under `/uploads/` resolve to the
      same URL: the stored path may carry the directory or not. */
  lemma BareAndPrefixedAgree(ruta: string)
    requires ruta != "" && !(UploadsPrefix <= ruta)
    ensures GetImage(Some(ruta)) == GetImage(Some("/uploads/" + ruta))
  {
    var prefixed := "/uploads/" + ruta;
    assert prefixed[..|UploadsPrefix|] == UploadsPrefix;
    assert Origin + "/uploads/" + ruta == Origin + prefixed;
  }

  /** The test is a plain prefix test: `/uploadsX` is not given a second
      `/uploads/`. */
  lemma PlainPrefixTest()
    ensures GetImage(Some("/uploadsX")) == "http://localhost:5000/uploadsX"
    ensures GetImage(Some("taco.jpg")) == "http://localhost:5000/uploads/taco.jpg"
  {
    assert "taco.jpg"[0] != UploadsPrefix[0];
  }
}
