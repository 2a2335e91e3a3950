/** Rewriting a catalog image URL to ask the image CDN for a cropped rendition
    (`getCroppedImageUrl`): the segment `crop/<width>/<height>/` goes right after
    the first `/media/` of the URL. */
module CroppedImageUrl {

  import opened Wrappers
  import opened Strings

  /** The picture shown for a game without an image:
      `https://images.unsplash.com/photo-1486312338219-ce68d2c6f44d?auto=format&fit=crop&w=800&q=80`,
      spelled in short pieces so that the verifier can inspect each of them. */
  const Fallback: string :=
    "https:" + "//" + "images.unsplash.com" + "/" + "photo-1486312338219-" + "ce68d2c6f44d?auto=format"
    + "&fit=crop&w=800&q=80"
  const MediaSegment: string := "/media/"
  /** A URL containing this already points at a cropped rendition. */
  const CropMarker: string := "/media/crop/"
  const DefaultWidth: int := 600
  const DefaultHeight: int := 400

  /** The inserted segment `crop/<width>/<height>/`. */
  function CropSegment(width: int, height: int): (seg: string)
    ensures |seg| >= 9 && seg[..5] == "crop/" && seg[|seg| - 1] == '/'
  {
    "crop/" + IntToString(width) + "/" + IntToString(height) + "/"
  }

  /** Where the segment goes: just past the first `/media/`, if there is one. */
  function InsertionPoint(url: string): (r: Option<nat>)
    ensures r.Some? ==> |MediaSegment| <= r.value <= |url| && url[r.value - |MediaSegment|..r.value] == MediaSegment
    ensures r.Some? ==> forall j :: 0 <= j < r.value - |MediaSegment| ==> !MatchAt(url, MediaSegment, j)
    ensures r.None? <==> !Contains(url, MediaSegment)
  {
    match IndexOf(url, MediaSegment)
    case None => None
    case Some(i) => Some(i + |MediaSegment|)
  }

  /** The rewritten URL. Absent arguments take their defaults: a missing or empty
      URL gives the fallback picture, and the size defaults to 600 by 400. */
  function GetCroppedImageUrl(url: Option<string>, width: Option<int>, height: Option<int>): (r: string)
    ensures url.None? || url.value == "" ==> r == Fallback
    ensures url.Some? && url.value != "" && Contains(url.value, CropMarker) ==> r == url.value
    ensures url.Some? && url.value != "" && !Contains(url.value, MediaSegment) ==> r == url.value
    ensures url.Some? && url.value != "" && !Contains(url.value, CropMarker) && Contains(url.value, MediaSegment) ==>
      var k := InsertionPoint(url.value).value;
      var seg := CropSegment(width.GetOr(DefaultWidth), height.GetOr(DefaultHeight));
      && |r| == |url.value| + |seg|
      && r[..k] == url.value[..k] && r[k..k + |seg|] == seg && r[k + |seg|..] == url.value[k..]
  {
    if url.None? || url.value == "" then Fallback
    else if Contains(url.value, CropMarker) then url.value
    else
      match InsertionPoint(url.value)
      case None => url.value
      case Some(k) =>
        var seg := CropSegment(width.GetOr(DefaultWidth), height.GetOr(DefaultHeight));
        var r := url.value[..k] + seg + url.value[k..];
        assert r[k..k + |seg|] == seg && r[k + |seg|..] == url.value[k..];
        r
  }

  /** Every rewritten URL carries the crop marker, so it is left alone next time. */
  lemma {:induction false} RewrittenUrlHasMarker(url: string, width: int, height: int)
    requires url != "" && !Contains(url, CropMarker) && Contains(url, MediaSegment)
    ensures Contains(GetCroppedImageUrl(Some(url), Some(width), Some(height)), CropMarker)
  {
    var k := InsertionPoint(url).value;
    var seg := CropSegment(width, height);
    assert GetCroppedImageUrl(Some(url), Some(width), Some(height)) == url[..k] + seg + url[k..];
    MarkerAfterInsertion(url, k, seg);
  }

  /** Inserting a segment that starts with `crop/` right after a `/media/`
      produces the crop marker there. */
  lemma MarkerAfterInsertion(url: string, k: int, seg: string)
    requires |MediaSegment| <= k <= |url| && url[k - |MediaSegment|..k] == MediaSegment
    requires |seg| >= 5 && seg[..5] == "crop/"
    ensures MatchAt(url[..k] + seg + url[k..], CropMarker, k - |MediaSegment|)
  {
    var r := url[..k] + seg + url[k..];
    var i := k - |MediaSegment|;
    assert r[i..k] == url[i..k];
    assert r[k..k + 5] == seg[..5];
    assert r[i..i + |CropMarker|] == r[i..k] + r[k..k + 5];
  }

  /** No `/` in `s` is directly followed by `m`. */
  predicate NoSlashM(s: string) {
    forall j :: 0 <= j < |s| - 1 ==> !(s[j] == '/' && s[j + 1] == 'm')
  }

  lemma SlashFreeNoSlashM(s: string)
    requires '/' !in s
    ensures NoSlashM(s)
  {
    forall j | 0 <= j < |s| - 1 ensures s[j] != '/' {
      assert s[j] in s;
    }
  }

  lemma NoSlashMConcat(a: string, b: string)
    requires NoSlashM(a) && NoSlashM(b)
    requires a == [] || b == [] || a[|a| - 1] != '/' || b[0] != 'm'
    ensures NoSlashM(a + b)
  {
    forall j | 0 <= j < |a + b| - 1 ensures !((a + b)[j] == '/' && (a + b)[j + 1] == 'm') {
      if j + 1 < |a| {
        assert (a + b)[j] == a[j] && (a + b)[j + 1] == a[j + 1];
      } else if j >= |a| {
        assert (a + b)[j] == b[j - |a|] && (a + b)[j + 1] == b[j + 1 - |a|];
      } else {
        assert (a + b)[j] == a[|a| - 1] && (a + b)[j + 1] == b[0];
      }
    }
  }

  /** A string in which `/` is never followed by `m` contains no `/media/`. */
  lemma NoSlashMNoMedia(s: string)
    requires NoSlashM(s)
    ensures !Contains(s, MediaSegment)
  {
    forall j | 0 <= j && j + |MediaSegment| <= |s| ensures !MatchAt(s, MediaSegment, j) {
      assert s[j..j + 7][0] == s[j] && s[j..j + 7][1] == s[j + 1];
    }
  }

  /** The fallback picture has no `/media/` in it. */
  lemma FallbackHasNoMedia()
    ensures !Contains(Fallback, MediaSegment)
  {
    var p1, p2, p3, p4, p5 := "https:", "images.unsplash.com", "photo-1486312338219-",
      "ce68d2c6f44d?auto=format", "&fit=crop&w=800&q=80";
    SlashFreeNoSlashM(p1);
    SlashFreeNoSlashM(p2);
    SlashFreeNoSlashM(p3);
    SlashFreeNoSlashM(p4);
    SlashFreeNoSlashM(p5);
    assert NoSlashM("//") && NoSlashM("/");
    NoSlashMConcat(p1, "//");
    NoSlashMConcat(p1 + "//", p2);
    NoSlashMConcat(p1 + "//" + p2, "/");
    NoSlashMConcat(p1 + "//" + p2 + "/", p3);
    NoSlashMConcat(p1 + "//" + p2 + "/" + p3, p4);
    NoSlashMConcat(p1 + "//" + p2 + "/" + p3 + p4, p5);
    NoSlashMNoMedia(Fallback);
  }

  /** Rewriting is idempotent: applied to its own output, with any size, the
      function returns that output unchanged. */
  lemma Idempotent(url: Option<string>, width: Option<int>, height: Option<int>,
                   width2: Option<int>, height2: Option<int>)
    ensures var r := GetCroppedImageUrl(url, width, height);
      GetCroppedImageUrl(Some(r), width2, height2) == r
  {
    var r := GetCroppedImageUrl(url, width, height);
    if url.None? || url.value == "" {
      FallbackHasNoMedia();
    } else if !Contains(url.value, CropMarker) && Contains(url.value, MediaSegment) {
      RewrittenUrlHasMarker(url.value, width.GetOr(DefaultWidth), height.GetOr(DefaultHeight));
      assert GetCroppedImageUrl(url, width, height)
          == GetCroppedImageUrl(Some(url.value), Some(width.GetOr(DefaultWidth)), Some(height.GetOr(DefaultHeight)));
    }
  }

  /** Cutting the inserted segment back out of a rewritten URL recovers the
      original URL. */
  lemma RemovingSegmentRecoversUrl(url: string, width: Option<int>, height: Option<int>)
    requires url != "" && !Contains(url, CropMarker) && Contains(url, MediaSegment)
    ensures var r := GetCroppedImageUrl(Some(url), width, height);
      var k := InsertionPoint(url).value;
      var n := |CropSegment(width.GetOr(DefaultWidth), height.GetOr(DefaultHeight))|;
      |r| == |url| + n && r[..k] + r[k + n..] == url
  {
    var k := InsertionPoint(url).value;
    assert url == url[..k] + url[k..];
  }
}
