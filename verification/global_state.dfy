/** The application-wide client state (`GlobalState`): the content list with
    its search form and stale-response guard, and the library-version
    browser with its folder path stack. Server replies and request
    timestamps are parameters; the requests themselves are not modelled. */
module GlobalState {
  import opened Common
  import Text
  import Seqs
  import opened FrontendTypes
  import Urls
  import opened ContentSearch

  /** `state.contents_api`. The source keeps the "duplicatable" radio inside
      `search` (default `"all"`); here it sits beside `search` because
      `SearchState` is shared with `ContentsProvider`, whose search form has
      no such radio. It starts at `AnyDuplicatable` along with
      `SearchDefaults`. */
  datatype ContentsApi = ContentsApi(
    lastRequestTimestamp: int, displayRows: seq<DisplayRow>, loadedContent: seq<SerializedContent>,
    page: int, pageSize: int, totalCount: int, search: SearchState, duplicatable: DuplicatableChoice,
    selection: seq<int>, sorting: seq<Sorting>)

  /** `state.library_versions_api`: the version being browsed, the listing of
      the current directory, the path of folders entered, and every folder
      of the version with its path string. */
  datatype VersionsApi = VersionsApi(
    currentVersion: LibraryVersion, folders: seq<LibraryFolder>, files: seq<SerializedContent>,
    path: seq<LibraryFolder>, foldersInVersion: seq<(LibraryFolder, string)>)

  /** `search_defaults`. */
  const SearchDefaults := SearchState(ActiveOnly, "", None, None, "", [], None, None, "", None, None)

  /** The first of `contents_page_sizes`. */
  const DefaultPageSize := 10

  /** The names of the metadata types, in order. */
  function TypeNames(types: seq<SerializedMetadataType>): (r: seq<string>)
    ensures |r| == |types| && forall i :: 0 <= i < |types| ==> r[i] == types[i].name
  {
    seq(|types|, i requires 0 <= i < |types| => types[i].name)
  }

  // ---- Folder paths -------------------------------------------------------

  /** Whether a folder has the given id (`null` matches none). */
  function FolderIdIs(id: Option<int>): LibraryFolder -> bool
  {
    (f: LibraryFolder) => id.Some? && f.id == id.value
  }

  /** `folders.find(folder => folder.id === id)`. */
  function FindFolder(folders: seq<LibraryFolder>, id: Option<int>): (r: Option<LibraryFolder>)
    ensures r.Some? ==> r.value in folders && id == Some(r.value.id)
    ensures r.None? <==> forall i :: 0 <= i < |folders| ==> !FolderIdIs(id)(folders[i])
  {
    match Seqs.FirstIndex(folders, FolderIdIs(id))
    case None => None
    case Some(i) => Some(folders[i])
  }

  /** `build_path`: follows parent links from the last folder of `path`
      through `folders` until a parent is not found. Were a folder met twice,
      the recursion would never end and the update would throw; that case is
      `None`. */
  function BuildPath(folders: seq<LibraryFolder>, path: seq<LibraryFolder>): (r: Option<seq<LibraryFolder>>)
    requires |path| > 0
    ensures r.Some? ==> path <= r.value
    ensures r.Some? ==> FindFolder(folders, r.value[|r.value| - 1].parent).None?
    ensures r.Some? ==> forall i :: |path| - 1 <= i < |r.value| - 1 ==>
                          FindFolder(folders, r.value[i].parent) == Some(r.value[i + 1])
    decreases (set f | f in folders) - (set f | f in path)
  {
    match FindFolder(folders, path[|path| - 1].parent)
    case None => Some(path)
    case Some(p) =>
      if p in path then None
      else
        assert p in (set f | f in folders) - (set f | f in path);
        BuildPath(folders, path + [p])
  }

  /** A depth for every folder that strictly decreases from child to parent
      rules out cycles. */
  predicate DepthDecreases(folders: seq<LibraryFolder>, depth: LibraryFolder -> nat)
  {
    forall f :: f in folders && FindFolder(folders, f.parent).Some? ==>
      depth(FindFolder(folders, f.parent).value) < depth(f)
  }

  /** A folder shallower than the last of a path whose depths decrease is
      not on that path. */
  lemma ShallowerNotOnPath(path: seq<LibraryFolder>, p: LibraryFolder, depth: LibraryFolder -> nat)
    requires |path| > 0 && depth(p) < depth(path[|path| - 1])
    requires forall i, j :: 0 <= i < j < |path| ==> depth(path[j]) < depth(path[i])
    ensures p !in path
    ensures forall i, j :: 0 <= i < j < |path + [p]| ==> depth((path + [p])[j]) < depth((path + [p])[i])
  {
    forall k | 0 <= k < |path|
      ensures path[k] != p && depth(p) < depth(path[k])
    {
      if k < |path| - 1 {
        assert depth(path[|path| - 1]) < depth(path[k]);
      }
    }
  }

  /** Given acyclic parent links, the path is always built. */
  lemma {:induction false} BuildPathAcyclic(folders: seq<LibraryFolder>, path: seq<LibraryFolder>, depth: LibraryFolder -> nat)
    requires |path| > 0 && path[|path| - 1] in folders
    requires DepthDecreases(folders, depth)
    requires forall i, j :: 0 <= i < j < |path| ==> depth(path[j]) < depth(path[i])
    ensures BuildPath(folders, path).Some?
    decreases (set f | f in folders) - (set f | f in path)
  {
    var last := path[|path| - 1];
    match FindFolder(folders, last.parent)
    case None =>
    case Some(p) =>
      assert depth(p) < depth(last);
      ShallowerNotOnPath(path, p, depth);
      assert p in (set f | f in folders) - (set f | f in path);
      BuildPathAcyclic(folders, path + [p], depth);
  }

  /** The path string of a folder: its own name, then its ancestors' names,
      joined with `/`. */
  function PathString(folders: seq<LibraryFolder>, folder: LibraryFolder): Option<string>
  {
    match BuildPath(folders, [folder])
    case None => None
    case Some(chain) => Some(Text.Join(FolderNames(chain), "/"))
  }

  function FolderNames(chain: seq<LibraryFolder>): (r: seq<string>)
    ensures |r| == |chain| && forall i :: 0 <= i < |chain| ==> r[i] == chain[i].folderName
  {
    seq(|chain|, i requires 0 <= i < |chain| => chain[i].folderName)
  }

  /** The path string starts with the folder's own name and ends with the
      name of its topmost ancestor, the one whose parent is not found. */
  lemma PathStringEnds(folders: seq<LibraryFolder>, folder: LibraryFolder)
    requires PathString(folders, folder).Some?
    ensures var chain := BuildPath(folders, [folder]).value;
            && chain[0] == folder
            && folder.folderName <= PathString(folders, folder).value
            && FindFolder(folders, chain[|chain| - 1].parent).None?
            && Text.EndsWith(PathString(folders, folder).value, chain[|chain| - 1].folderName)
  {
    var chain := BuildPath(folders, [folder]).value;
    Text.JoinEnds(FolderNames(chain), "/");
  }

  /** `folders_in_version`: every folder paired with its path string; `None`
      when some folder's parent links loop. */
  function FolderPaths(folders: seq<LibraryFolder>): (r: Option<seq<(LibraryFolder, string)>>)
    ensures r.Some? <==> forall i :: 0 <= i < |folders| ==> PathString(folders, folders[i]).Some?
    ensures r.Some? ==> |r.value| == |folders|
    ensures r.Some? ==> forall i :: 0 <= i < |folders| ==> r.value[i] == (folders[i], PathString(folders, folders[i]).value)
  {
    if forall i :: 0 <= i < |folders| ==> PathString(folders, folders[i]).Some?
    then Some(seq(|folders|, i requires 0 <= i < |folders| => (folders[i], PathString(folders, folders[i]).value)))
    else None
  }

  // ---- Path stack ---------------------------------------------------------

  /** The end index `Array.prototype.slice(0, end)` uses. */
  function SliceEnd(len: nat, end: int): (r: nat)
    ensures r <= len
  {
    if end < 0 then (if len + end < 0 then 0 else len + end)
    else if end > len then len
    else end
  }

  /** The path after `enter_folder(folder, back)`, before its last entry is
      refreshed: the folder appended when `back` is undefined, otherwise the
      last `back` entries dropped. */
  function NextPath(path: seq<LibraryFolder>, folder: LibraryFolder, back: Option<int>): (r: seq<LibraryFolder>)
    ensures back.None? ==> r == path + [folder]
    ensures back.Some? ==> r <= path
    ensures back.Some? && 0 <= back.value <= |path| ==> |r| == |path| - back.value
  {
    if back.None? then path + [folder] else path[..SliceEnd(|path|, |path| - back.value)]
  }

  /** Entering a folder and then going back one level restores the path. */
  lemma EnterThenBack(path: seq<LibraryFolder>, folder: LibraryFolder, other: LibraryFolder)
    ensures NextPath(NextPath(path, folder, None), other, Some(1)) == path
  {
    assert (path + [folder])[..|path|] == path;
  }

  /** The last entry replaced by its refreshed copy, when there is one. An
      empty path is left alone: the assignment at index -1 adds no element. */
  function ReplaceLast(path: seq<LibraryFolder>, fetched: LibraryFolder): (r: seq<LibraryFolder>)
    ensures |r| == |path|
    ensures |path| > 0 ==> r[..|path| - 1] == path[..|path| - 1] && r[|path| - 1] == fetched
    ensures |path| == 0 ==> r == path
  {
    if |path| == 0 then path else path[|path| - 1 := fetched]
  }

  // ---- Child folders ------------------------------------------------------

  /** Where a new folder goes: into a folder, or at the root of a version. */
  datatype FolderParent = InFolder(folder: LibraryFolder) | AtRoot(version: LibraryVersion)

  /** The body of the create-folder request. */
  datatype FolderPayload = FolderPayload(folderName: string, version: int, parent: Option<int>)

  /** `create_child_folder`'s payload. */
  function ChildFolderPayload(parent: FolderParent, name: string): (r: FolderPayload)
    ensures r.folderName == name
    ensures parent.InFolder? ==> r.version == parent.folder.version && r.parent == Some(parent.folder.id)
    ensures parent.AtRoot? ==> r.version == parent.version.id && r.parent.None?
  {
    match parent
    case InFolder(f) => FolderPayload(name, f.version, Some(f.id))
    case AtRoot(v) => FolderPayload(name, v.id, None)
  }

  /** The folder the server creates from a payload, once it has an id. */
  function Created(payload: FolderPayload, id: int): LibraryFolder
  {
    LibraryFolder(id, payload.folderName, payload.version, payload.parent)
  }

  /** No folder has the id, nor names it as its parent. */
  predicate FreshId(folders: seq<LibraryFolder>, id: int)
  {
    forall f :: f in folders ==> f.id != id && f.parent != Some(id)
  }

  /** Adding a folder with a fresh id that no chain reaches leaves every
      chain built from the old folders as it was, behind the extra prefix. */
  lemma {:induction false} BuildPathExtended(folders: seq<LibraryFolder>, c: LibraryFolder, path: seq<LibraryFolder>)
    requires FreshId(folders, c.id)
    requires |path| > 0 && path[|path| - 1] in folders && c !in path
    ensures BuildPath(folders + [c], [c] + path)
            == match BuildPath(folders, path) case None => None case Some(chain) => Some([c] + chain)
    decreases (set f | f in folders) - (set f | f in path)
  {
    var last := path[|path| - 1];
    var all := folders + [c];
    assert ([c] + path)[|[c] + path| - 1] == last;
    FindFolderExtended(folders, c, last.parent);
    match FindFolder(folders, last.parent)
    case None =>
    case Some(p) =>
      assert p != c;
      assert p in ([c] + path) <==> p in path;
      if p !in path {
        assert p in (set f | f in folders) - (set f | f in path);
        assert [c] + path + [p] == [c] + (path + [p]);
        BuildPathExtended(folders, c, path + [p]);
      }
  }

  /** Looking up a parent that is not the new folder's id finds what it found
      before. */
  lemma FindFolderExtended(folders: seq<LibraryFolder>, c: LibraryFolder, id: Option<int>)
    requires FreshId(folders, c.id) && id != Some(c.id)
    ensures FindFolder(folders + [c], id) == FindFolder(folders, id)
  {
    Seqs.FilterHead(folders, FolderIdIs(id));
    FirstIndexExtended(folders, [c], FolderIdIs(id));
  }

  /** A first match is not affected by appending elements that do not match. */
  lemma {:induction false} FirstIndexExtended<T>(s: seq<T>, extra: seq<T>, p: T -> bool)
    requires forall i :: 0 <= i < |extra| ==> !p(extra[i])
    ensures Seqs.FirstIndex(s + extra, p) == Seqs.FirstIndex(s, p)
  {
    if |s| > 0 {
      assert (s + extra)[1..] == s[1..] + extra;
      FirstIndexExtended(s[1..], extra, p);
    } else {
      assert s + extra == extra;
      FirstIndexNone(extra, p);
    }
  }

  lemma {:induction false} FirstIndexNone<T>(s: seq<T>, p: T -> bool)
    requires forall i :: 0 <= i < |s| ==> !p(s[i])
    ensures Seqs.FirstIndex(s, p).None?
  {
    if |s| > 0 {
      FirstIndexNone(s[1..], p);
    }
  }

  /** The chain of a folder created inside `p` is the new folder followed by
      the chain of `p`. */
  lemma ChildChain(folders: seq<LibraryFolder>, p: LibraryFolder, child: LibraryFolder)
    requires FreshId(folders, child.id) && child.parent == Some(p.id)
    requires p in folders && FindFolder(folders, Some(p.id)) == Some(p)
    ensures BuildPath(folders + [child], [child])
            == match BuildPath(folders, [p]) case None => None case Some(chain) => Some([child] + chain)
  {
    assert child !in folders;
    FindFolderExtended(folders, child, Some(p.id));
    BuildPathExtended(folders, child, [p]);
    assert p != child && [child] + [p] == [child, p];
  }

  /** The path string of a folder created inside `p`: its name, `/`, then
      the path string of `p`. */
  lemma ChildPathStringInFolder(folders: seq<LibraryFolder>, p: LibraryFolder, child: LibraryFolder)
    requires FreshId(folders, child.id) && child.parent == Some(p.id)
    requires p in folders && FindFolder(folders, Some(p.id)) == Some(p)
    requires PathString(folders, p).Some?
    ensures PathString(folders + [child], child) == Some(child.folderName + "/" + PathString(folders, p).value)
  {
    ChildChain(folders, p, child);
    var chain := BuildPath(folders, [p]).value;
    assert |chain| > 0 by {
      assert [p] <= chain;
    }
    PathStringOfChain(folders + [child], child, chain);
  }

  /** A chain that continues past the folder itself joins the folder's name
      to the rest with one `/`. */
  lemma PathStringOfChain(folders: seq<LibraryFolder>, folder: LibraryFolder, rest: seq<LibraryFolder>)
    requires |rest| > 0 && BuildPath(folders, [folder]) == Some([folder] + rest)
    ensures PathString(folders, folder) == Some(folder.folderName + "/" + Text.Join(FolderNames(rest), "/"))
  {
    assert FolderNames([folder] + rest) == [folder.folderName] + FolderNames(rest);
    Text.JoinCons(folder.folderName, FolderNames(rest), "/");
  }

  /** A folder created inside a folder has that folder's path string behind
      its own name; one created at a version root has just its name. */
  lemma ChildPathString(folders: seq<LibraryFolder>, parent: FolderParent, name: string, id: int)
    requires FreshId(folders, id)
    requires parent.InFolder? ==> parent.folder in folders && FindFolder(folders, Some(parent.folder.id)) == Some(parent.folder)
    ensures var child := Created(ChildFolderPayload(parent, name), id);
            parent.AtRoot? ==> PathString(folders + [child], child) == Some(name)
    ensures var child := Created(ChildFolderPayload(parent, name), id);
            parent.InFolder? && PathString(folders, parent.folder).Some? ==>
              PathString(folders + [child], child) == Some(name + "/" + PathString(folders, parent.folder).value)
  {
    var child := Created(ChildFolderPayload(parent, name), id);
    if parent.AtRoot? {
      assert FindFolder(folders + [child], None).None?;
      assert BuildPath(folders + [child], [child]) == Some([child]);
    } else if PathString(folders, parent.folder).Some? {
      ChildPathStringInFolder(folders, parent.folder, child);
    }
  }

  // ---- The state ----------------------------------------------------------

  class GlobalState {
    var contents: ContentsApi
    var versions: VersionsApi
    /** `state.metadata_api.metadata_types`. */
    var metadataTypes: seq<SerializedMetadataType>

    /** The initial state. */
    constructor ()
      ensures contents == ContentsApi(0, [], [], 0, DefaultPageSize, 0, SearchDefaults, AnyDuplicatable, [], [])
      ensures versions == VersionsApi(LibraryVersion(0, "", ""), [], [], [], [])
      ensures metadataTypes == []
    {
      contents := ContentsApi(0, [], [], 0, DefaultPageSize, 0, SearchDefaults, AnyDuplicatable, [], []);
      versions := VersionsApi(LibraryVersion(0, "", ""), [], [], [], []);
      metadataTypes := [];
    }

    /** The query of the request `load_content_rows` sends: the grid's page
        counts from 0 and the server's from 1. */
    method ContentRequest() returns (params: seq<Urls.Param>)
      ensures params == Urls.ContentPageParams(contents.page + 1, contents.pageSize,
                                               BuildFilters(contents.search, contents.sorting, Some(contents.duplicatable)))
    {
      var filters := BuildFilters(contents.search, contents.sorting, Some(contents.duplicatable));
      params := Urls.ContentPage(contents.page + 1, contents.pageSize, Some(filters));
    }

    /** The reply to a content-page request sent at `requestTimestamp`: applied
        only when no later request has been applied; then the rows, their
        display rows and the count replace the old ones and the selection is
        cleared. */
    method ReceiveContentPage(requestTimestamp: int, rows: seq<SerializedContent>, count: int)
      modifies this
      ensures Accepts(old(contents.lastRequestTimestamp), requestTimestamp) ==>
                contents == old(contents).(lastRequestTimestamp := requestTimestamp, loadedContent := rows,
                                           displayRows := DisplayRows(rows, TypeNames(metadataTypes)),
                                           totalCount := count, selection := [])
      ensures !Accepts(old(contents.lastRequestTimestamp), requestTimestamp) ==> contents == old(contents)
      ensures contents.lastRequestTimestamp >= old(contents.lastRequestTimestamp)
      ensures versions == old(versions) && metadataTypes == old(metadataTypes)
    {
      if Accepts(contents.lastRequestTimestamp, requestTimestamp) {
        var display := MakeDisplayRows(rows, TypeNames(metadataTypes));
        contents := contents.(lastRequestTimestamp := requestTimestamp, loadedContent := rows,
                              displayRows := display, totalCount := count, selection := []);
      }
    }

    /** The ids `add_selected_to_folder` posts. */
    method SelectedForFolder() returns (ids: seq<int>)
      ensures ids == SelectedIds(contents.selection, contents.loadedContent)
    {
      ids := [];
      var i := 0;
      while i < |contents.selection|
        invariant 0 <= i <= |contents.selection|
        invariant ids == SelectedIds(contents.selection[..i], contents.loadedContent)
      {
        var idx := contents.selection[i];
        assert contents.selection[..i + 1][..i] == contents.selection[..i];
        if 0 <= idx < |contents.loadedContent| {
          ids := ids + [contents.loadedContent[idx].id];
        }
        i := i + 1;
      }
      assert contents.selection[..i] == contents.selection;
    }

    /** `refresh_folders_in_current_version` with the version's folders: the
        path strings replace the old ones, unless building one throws. */
    method RefreshFoldersInCurrentVersion(folders: seq<LibraryFolder>)
      modifies this
      ensures FolderPaths(folders).Some? ==> versions == old(versions).(foldersInVersion := FolderPaths(folders).value)
      ensures FolderPaths(folders).None? ==> versions == old(versions)
      ensures contents == old(contents) && metadataTypes == old(metadataTypes)
    {
      var paths := FolderPaths(folders);
      if paths.Some? {
        versions := versions.(foldersInVersion := paths.value);
      }
    }

    /** `enter_version_root` with the version's root folders: the version
        becomes current, its root is listed and the path is emptied. */
    method EnterVersionRoot(version: LibraryVersion, rootFolders: seq<LibraryFolder>)
      modifies this
      ensures versions == old(versions).(currentVersion := version, folders := rootFolders, files := [], path := [])
      ensures contents == old(contents) && metadataTypes == old(metadataTypes)
    {
      versions := versions.(currentVersion := version, folders := rootFolders, files := [], path := []);
    }

    /** `_update_current_directory` with the folder's listing and its
        refreshed record: the listing replaces the current one and the last
        path entry is replaced by the refreshed record. */
    method UpdateCurrentDirectory(folders: seq<LibraryFolder>, files: seq<SerializedContent>, fetched: LibraryFolder)
      modifies this
      ensures versions == old(versions).(folders := folders, files := files, path := ReplaceLast(old(versions.path), fetched))
      ensures contents == old(contents) && metadataTypes == old(metadataTypes)
    {
      versions := versions.(folders := folders, files := files);
      if |versions.path| > 0 {
        versions := versions.(path := versions.path[|versions.path| - 1 := fetched]);
      }
    }

    /** `enter_folder(folder, back)` with the folder's listing and refreshed
        record. */
    method EnterFolder(folder: LibraryFolder, back: Option<int>,
                       folders: seq<LibraryFolder>, files: seq<SerializedContent>, fetched: LibraryFolder)
      modifies this
      ensures versions == old(versions).(folders := folders, files := files,
                                         path := ReplaceLast(NextPath(old(versions.path), folder, back), fetched))
      ensures contents == old(contents) && metadataTypes == old(metadataTypes)
    {
      versions := versions.(path := NextPath(versions.path, folder, back));
      UpdateCurrentDirectory(folders, files, fetched);
    }

    /** `enter_parent`: with an empty path nothing happens; otherwise the last
        entry is popped and the new last folder is listed, or the version
        root when none is left. */
    method EnterParent(folders: seq<LibraryFolder>, files: seq<SerializedContent>, fetched: LibraryFolder,
                       rootFolders: seq<LibraryFolder>)
      modifies this
      ensures |old(versions.path)| == 0 ==> versions == old(versions)
      ensures |old(versions.path)| == 1 ==>
                versions == old(versions).(folders := rootFolders, files := [], path := [])
      ensures |old(versions.path)| > 1 ==>
                versions == old(versions).(folders := folders, files := files,
                                           path := ReplaceLast(old(versions.path)[..|old(versions.path)| - 1], fetched))
      ensures contents == old(contents) && metadataTypes == old(metadataTypes)
    {
      if |versions.path| > 0 {
        versions := versions.(path := versions.path[..|versions.path| - 1]);
        if |versions.path| > 0 {
          UpdateCurrentDirectory(folders, files, fetched);
        } else {
          EnterVersionRoot(versions.currentVersion, rootFolders);
        }
      }
    }
  }
}
