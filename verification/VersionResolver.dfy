/**
 * Picking the versions to install: the latest vanilla release from the
 * decoded version manifest, and the latest Forge version from the decoded
 * list of Forge's repository tags.
 */
module VersionResolver {
  import opened Wrappers
  import opened Strings

  /** The two exceptions the core raises. */
  datatype Error =
    | ValueError(message: string)   // the manifest names a release it does not list
    | IndexError                    // `tags[-1]` on an empty tag list

  const LatestVersionMessage := "Failed to get latest version."

  /** One entry of the manifest's `versions` list. */
  datatype VersionEntry = VersionEntry(id: string, url: string)

  /** The decoded version manifest: `latest.release` and `versions`. */
  datatype Manifest = Manifest(latestRelease: string, versions: seq<VersionEntry>)

  /**
   * `get_latest_version_url` after the manifest has been fetched: scan the
   * versions in order and return the latest release id with the URL of the
   * FIRST entry carrying that id; raise if no entry does.
   */
  method GetLatestVersionUrl(manifest: Manifest) returns (r: Result<(string, string), Error>)
    ensures r.Success? <==>
              exists i :: 0 <= i < |manifest.versions| && manifest.versions[i].id == manifest.latestRelease
    ensures r.Success? ==>
              r.value.0 == manifest.latestRelease &&
              exists i :: 0 <= i < |manifest.versions| &&
                          manifest.versions[i].id == manifest.latestRelease &&
                          r.value.1 == manifest.versions[i].url &&
                          forall j :: 0 <= j < i ==> manifest.versions[j].id != manifest.latestRelease
    ensures r.Failure? ==> r.error == ValueError(LatestVersionMessage)
  {
    var latest := manifest.latestRelease;
    var n := 0;
    while n < |manifest.versions|
      invariant 0 <= n <= |manifest.versions|
      invariant forall j :: 0 <= j < n ==> manifest.versions[j].id != latest
    {
      var version := manifest.versions[n];
      if version.id == latest {
        return Success((latest, version.url));
      }
      n := n + 1;
    }
    return Failure(ValueError(LatestVersionMessage));
  }

  // ------------------------------------------------------------ Forge tags

  /** One entry of the GitHub tag list; only its `name` is read. */
  datatype Tag = Tag(name: string)

  /**
   * `format_tag_name`: strip every leading 'v', then give a two-segment
   * version a third segment ".0".
   */
  function FormatTagName(tag: string): (r: string)
    ensures r == [] || r[0] != 'v'
    ensures |Split(r, '.')| != 2
  {
    var stripped := LStrip(tag, 'v');
    var formatted := if |Split(stripped, '.')| == 2 then stripped + ".0" else stripped;
    CountCharAppend(stripped, ".0", '.');
    assert stripped != [] ==> formatted[0] == stripped[0];
    formatted
  }

  /**
   * The shape of a normalised tag: whatever leading run of 'v's the tag
   * has, the result is the rest of the tag, followed by ".0" exactly when
   * that rest contains a single '.'.
   */
  lemma FormatTagNameShape(tag: string, k: nat)
    requires k <= |tag|
    requires forall i :: 0 <= i < k ==> tag[i] == 'v'
    requires k == |tag| || tag[k] != 'v'
    ensures FormatTagName(tag) == tag[k..] + (if CountChar(tag[k..], '.') == 1 then ".0" else "")
  {
    var stripped := LStrip(tag, 'v');
    var m := |tag| - |stripped|;
    assert stripped == tag[m..];
    assert m < |tag| ==> stripped[0] == tag[m];
    assert m == k;
  }

  /** Normalising an already normalised tag changes nothing. */
  lemma FormatTagNameIdempotent(tag: string)
    ensures FormatTagName(FormatTagName(tag)) == FormatTagName(tag)
  {
    var r := FormatTagName(tag);
    FormatTagNameShape(r, 0);
    assert r[0..] == r;
  }

  lemma CountDotsExamples()
    ensures CountChar("51", '.') == 0
    ensures CountChar("51.0", '.') == 1
    ensures CountChar("51.0.0", '.') == 2
  {
    CountOneDot();
    assert "51.0.0" == "51.0" + ".0";
    CountCharAppend("51.0", ".0", '.');
  }

  lemma CountOneDot()
    ensures CountChar(".0", '.') == 1
    ensures CountChar("51.0", '.') == 1
  {
    assert ".0"[1..] == "0";
    assert "51.0" == "51" + ".0";
    CountCharAppend("51", ".0", '.');
  }

  lemma LStripExample()
    ensures LStrip("vv51.0", 'v') == "51.0"
  {
    var tag := "vv51.0";
    assert tag[1..][1..] == "51.0";
    assert tag[1..][1..][0] == '5';
  }

  /** Every leading 'v' goes: "vv51.0" becomes "51.0.0". */
  lemma FormatTagNameStripsAllVs()
    ensures FormatTagName("vv51.0") == "51.0.0"
  {
    LStripExample();
    CountDotsExamples();
  }

  /** Three-segment and one-segment tags are left alone. */
  lemma FormatTagNameKeepsOthers()
    ensures FormatTagName("51.0.0") == "51.0.0"
    ensures FormatTagName("51") == "51"
  {
    CountDotsExamples();
    FormatTagNameShape("51.0.0", 0);
    assert "51.0.0"[0..] == "51.0.0";
    FormatTagNameShape("51", 0);
    assert "51"[0..] == "51";
  }

  /**
   * `get_latest_forge_version` after the tag list has been fetched: the last
   * tag, normalised; an empty list raises `IndexError`.
   */
  function LatestForgeVersion(tags: seq<Tag>): (r: Result<string, Error>)
    ensures tags == [] <==> r == Failure(IndexError)
    ensures tags != [] ==> r == Success(FormatTagName(tags[|tags| - 1].name))
  {
    if tags == [] then Failure(IndexError)
    else Success(FormatTagName(tags[|tags| - 1].name))
  }
}
