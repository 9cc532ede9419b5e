/** Recovering an image's public id from its hosted URL: the folder path and the
    file name up to the first dot, found by the first place where the folder path
    is followed by a name. */
module Upload {
  import opened Common
  import opened Text

  const Folder := "lucysperfumery/products/"

  /** The longest prefix of `s` free of '.': what `[^\.]+` consumes greedily. */
  function Run(s: string): (r: string)
    ensures |r| <= |s| && r == s[..|r|]
    ensures forall k :: 0 <= k < |r| ==> r[k] != '.'
    ensures |r| == |s| || s[|r|] == '.'
  {
    if s == [] || s[0] == '.' then []
    else [s[0]] + Run(s[1..])
  }

  /** The pattern `lucysperfumery\/products\/([^\.]+)` matches at position i: the
      folder path is there and at least one character other than '.' follows. */
  predicate MatchAt(s: string, i: int) {
    OccursAt(s, Folder, i) && i + |Folder| < |s| && s[i + |Folder|] != '.'
  }

  /** The leftmost position at or after `from` where the pattern matches. */
  function FirstMatch(s: string, from: nat): (r: Option<nat>)
    ensures r.Some? ==> from <= r.value && MatchAt(s, r.value)
                        && forall j :: from <= j < r.value ==> !MatchAt(s, j)
    ensures r.None? ==> forall j :: from <= j ==> !MatchAt(s, j)
    decreases |s| - from
  {
    if from + |Folder| >= |s| then None
    else if MatchAt(s, from) then Some(from)
    else FirstMatch(s, from + 1)
  }

  /** `extractPublicId(url)`. `None` stands for a missing or non-string value. */
  function ExtractPublicId(url: Option<string>): (r: Option<string>)
    ensures url.None? || url.value == "" ==> r.None?
    ensures url.Some? ==> (r.None? <==> forall j :: !MatchAt(url.value, j))
    ensures r.Some? ==> exists id :: && r.value == Folder + id && id != []
                                     && forall k :: 0 <= k < |id| ==> id[k] != '.'
  {
    if url.None? || url.value == "" then None
    else
      match FirstMatch(url.value, 0)
      case None => None
      case Some(i) =>
        var id := Run(url.value[i + |Folder|..]);
        Some(Folder + id)
  }

  /** The id is the whole run of non-'.' characters after the first match. */
  lemma PublicIdIsFirstRun(url: string, i: nat)
    requires MatchAt(url, i) && forall j :: 0 <= j < i ==> !MatchAt(url, j)
    ensures ExtractPublicId(Some(url)) == Some(Folder + Run(url[i + |Folder|..]))
  {
  }

  /** A URL the uploader produced, `<base>` + folder + name + `.` + extension with
      no earlier occurrence of the folder, gives back folder + name. */
  lemma UploadedUrl(base: string, name: string, ext: string)
    requires name != [] && forall k :: 0 <= k < |name| ==> name[k] != '.'
    requires forall j :: 0 <= j < |base| ==> !MatchAt(base + Folder + name + "." + ext, j)
    ensures ExtractPublicId(Some(base + Folder + name + "." + ext)) == Some(Folder + name)
  {
    var url := base + Folder + name + "." + ext;
    var i := |base|;
    assert url[i..i + |Folder|] == Folder;
    var tail := url[i + |Folder|..];
    assert tail == name + "." + ext;
    assert url[i + |Folder|] == name[0];
    PublicIdIsFirstRun(url, i);
    RunStopsAtDot(name, ext);
  }

  lemma {:induction false} RunStopsAtDot(name: string, ext: string)
    requires forall k :: 0 <= k < |name| ==> name[k] != '.'
    ensures Run(name + "." + ext) == name
  {
    if name != [] {
      assert (name + "." + ext)[1..] == name[1..] + "." + ext;
      RunStopsAtDot(name[1..], ext);
      assert name == [name[0]] + name[1..];
    }
  }
}
