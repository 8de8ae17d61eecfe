/** The storage-path rules and display strings of the content models. */
module Models {
  import opened Common

  /** `os.path.join(a, b)` on POSIX: an absolute `b` replaces `a`; otherwise
      one `/` is inserted unless `a` is empty or already ends with one. */
  function PathJoin(a: string, b: string): string
  {
    if |b| > 0 && b[0] == '/' then b
    else if a == "" || a[|a| - 1] == '/' then a + b
    else a + "/" + b
  }

  predicate Relative(fileName: string)
  {
    |fileName| == 0 || fileName[0] != '/'
  }

  const ContentsDir := "contents"

  /** The path a content file is stored under, relative to the media root. */
  function ContentUploadPath(fileName: string): (r: string)
    ensures Relative(fileName) ==> r == "contents/" + fileName
    ensures !Relative(fileName) ==> r == fileName
  {
    PathJoin(ContentsDir, fileName)
  }

  /** A content item as seen by its file-upload callback. */
  class Content {
    var fileName: string

    constructor ()
      ensures fileName == ""
    {
      fileName := "";
    }

    /** `Content.set_file_name`: records the file name on the instance and
        returns the storage path under `contents/`. */
    method SetFileName(fileName: string) returns (path: string)
      modifies this
      ensures this.fileName == fileName
      ensures path == ContentUploadPath(fileName)
    {
      this.fileName := fileName;
      path := PathJoin(ContentsDir, fileName);
    }
  }

  /** The subfolder of `images/` for each layout-image group
      (1 logo, 2 banner, 3 library version). */
  function GroupFolder(imageGroup: int): Option<string>
  {
    if imageGroup == 1 then Some("logos")
    else if imageGroup == 2 then Some("banners")
    else if imageGroup == 3 then Some("libversions")
    else None
  }

  /** `LibLayoutImage.get_folder_name`: the storage path of an image of
      the given group; no branch matches any other group and the method
      returns `None`. */
  function GetFolderName(imageGroup: int, fileName: string): (r: Option<string>)
    ensures r.Some? <==> imageGroup in {1, 2, 3}
    ensures r.Some? && Relative(fileName) ==>
      r.value == "images/" + GroupFolder(imageGroup).value + "/" + fileName
  {
    match GroupFolder(imageGroup)
    case None => None
    case Some(sub) => Some(PathJoin(PathJoin("images", sub), fileName))
  }

  /** Different groups store the same file name under different paths. */
  lemma GetFolderNameInjective(g1: int, g2: int, fileName: string)
    requires Relative(fileName)
    requires GetFolderName(g1, fileName).Some? && GetFolderName(g1, fileName) == GetFolderName(g2, fileName)
    ensures g1 == g2
  {
    var p1 := GetFolderName(g1, fileName).value;
    var p2 := GetFolderName(g2, fileName).value;
    assert p1[7] == p2[7] && p1[8] == p2[8];
  }

  /** `f'[{head}]{tail}'`, the display form of metadata and versions. */
  function Bracketed(head: string, tail: string): string
  {
    "[" + head + "]" + tail
  }

  /** `Metadata.__str__`: `[type]name`. */
  function MetadataString(typeName: string, name: string): (r: string)
    ensures |r| == |typeName| + |name| + 2 && r[0] == '[' && r[|typeName| + 1] == ']'
    ensures r[1..|typeName| + 1] == typeName && r[|typeName| + 2..] == name
  {
    Bracketed(typeName, name)
  }

  /** `LibraryVersion.__str__`: `[library_name]version_number`. */
  function LibraryVersionString(libraryName: string, versionNumber: string): (r: string)
    ensures |r| == |libraryName| + |versionNumber| + 2 && r[0] == '[' && r[|libraryName| + 1] == ']'
    ensures r[1..|libraryName| + 1] == libraryName && r[|libraryName| + 2..] == versionNumber
  {
    Bracketed(libraryName, versionNumber)
  }

  function IndexOfChar(s: string, c: char, from: nat): (r: Option<nat>)
    ensures r.Some? ==> from <= r.value < |s| && s[r.value] == c
    ensures forall j :: from <= j < |s| && (r.None? || j < r.value) ==> s[j] != c
    decreases |s| - from
  {
    if from >= |s| then None else if s[from] == c then Some(from) else IndexOfChar(s, c, from + 1)
  }

  /** Reads a bracketed display string back into its two parts. */
  function ParseBracketed(s: string): Option<(string, string)>
  {
    if |s| == 0 || s[0] != '[' then None
    else match IndexOfChar(s, ']', 1)
      case None => None
      case Some(k) => Some((s[1..k], s[k + 1..]))
  }

  /** The display form is unambiguous when the head has no `]`: both parts
      can be read back from it. */
  lemma {:induction false} BracketedRoundTrip(head: string, tail: string)
    requires ']' !in head
    ensures ParseBracketed(Bracketed(head, tail)) == Some((head, tail))
  {
    var s := Bracketed(head, tail);
    assert s[|head| + 1] == ']';
    forall j | 1 <= j < |head| + 1 ensures s[j] != ']' {
      assert s[j] == head[j - 1];
    }
    assert IndexOfChar(s, ']', 1) == Some(|head| + 1);
    assert s[1..|head| + 1] == head;
    assert s[|head| + 2..] == tail;
  }
}
