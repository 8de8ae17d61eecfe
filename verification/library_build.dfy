/** The selection rules of a library build: which rows of the live store
    are exported for one library version. The portable database writer that
    receives these row sets is not part of this model. */
module LibraryBuild {
  import opened Common
  import Models

  datatype Date = Date(year: int, month: int, day: int)

  datatype MetadataType = MetadataType(id: int, name: string)
  datatype Metadata = Metadata(id: int, name: string, typeId: int)
  /** A content item as the build reads it; `contentFile` is the stored
      path (`contents/<file_name>`). */
  datatype ContentEntry = ContentEntry(
    id: int, title: string, fileName: string, contentFile: string,
    description: Option<string>, publishedDate: Option<Date>,
    copyrightNotes: Option<string>, rightsStatement: Option<string>, filesize: int)
  /** `logoImage` is the logo's `image_file` path, absent without a logo. */
  datatype Folder = Folder(id: int, folderName: string, logoImage: Option<string>,
                           versionId: int, parentId: Option<int>)
  datatype LibraryModule = LibraryModule(id: int, moduleName: string, logoImage: Option<string>)

  /** The live store: each table keyed by primary key, each many-to-many
      relation as its set of junction pairs. */
  datatype Store = Store(
    metadataTypes: map<int, MetadataType>,
    metadata: map<int, Metadata>,
    contents: map<int, ContentEntry>,
    folders: map<int, Folder>,
    modules: map<int, LibraryModule>,
    versionTypes: set<(int, int)>,      // (version id, metadata type id)
    versionModules: set<(int, int)>,    // (version id, module id)
    folderContents: set<(int, int)>,    // (folder id, content id)
    contentMetadata: set<(int, int)>)   // (content id, metadata id)

  /** The integrity the relational schema enforces: keys are the rows' ids
      and foreign keys point at existing rows. A folder's `version` and
      `parent` are independent foreign keys, so nothing here ties a parent
      to its child's version (see `ParentsInSameVersion`). */
  ghost predicate Valid(s: Store)
  {
    (forall k :: k in s.metadataTypes ==> s.metadataTypes[k].id == k) &&
    (forall k :: k in s.metadata ==> s.metadata[k].id == k && s.metadata[k].typeId in s.metadataTypes) &&
    (forall k :: k in s.contents ==> s.contents[k].id == k) &&
    (forall k :: k in s.modules ==> s.modules[k].id == k) &&
    (forall k :: k in s.folders ==> s.folders[k].id == k) &&
    (forall k :: k in s.folders && s.folders[k].parentId.Some? ==> s.folders[k].parentId.value in s.folders) &&
    (forall p :: p in s.versionTypes ==> p.1 in s.metadataTypes) &&
    (forall p :: p in s.versionModules ==> p.1 in s.modules) &&
    (forall p :: p in s.folderContents ==> p.0 in s.folders && p.1 in s.contents) &&
    (forall p :: p in s.contentMetadata ==> p.0 in s.contents && p.1 in s.metadata)
  }

  /** Every folder's parent lies in the folder's own version. The schema
      does not enforce this; the client keeps it by creating a child folder
      in its parent's version. */
  ghost predicate ParentsInSameVersion(s: Store)
    requires Valid(s)
  {
    forall k :: k in s.folders && s.folders[k].parentId.Some? ==>
      s.folders[s.folders[k].parentId.value].versionId == s.folders[k].versionId
  }

  // Rows of the portable snapshot, one datatype per table.
  datatype MetadataTypeRow = MetadataTypeRow(id: int, name: string)
  datatype MetadataRow = MetadataRow(id: int, name: string, typeName: string, typeId: int)
  datatype FolderRow = FolderRow(id: int, name: string, logoPath: Option<string>, parentId: Option<int>)
  datatype ModuleRow = ModuleRow(id: int, name: string, logoPath: Option<string>)
  datatype ContentRow = ContentRow(
    id: int, title: string, description: Option<string>, filePath: string,
    publishedDate: Option<Date>, copyrightNotes: Option<string>,
    rightsStatement: Option<string>, filesize: int)
  datatype ContentMetadataRow = ContentMetadataRow(contentId: int, metadataId: int)

  /** The version's metadata-type whitelist. */
  function VersionTypeIds(s: Store, versionId: int): set<int>
  {
    set p | p in s.versionTypes && p.0 == versionId :: p.1
  }

  /** Ids of the contents placed in some folder of the version. */
  function ContentsInVersion(s: Store, versionId: int): set<int>
  {
    set p | p in s.folderContents && p.0 in s.folders && s.folders[p.0].versionId == versionId :: p.1
  }

  /** `Substr('content_file', 10)`: SQL's one-based substring from position
      10, i.e. the stored path without its first nine characters. */
  function Relativize(contentFile: string): (r: string)
    ensures |contentFile| >= 9 ==> contentFile == contentFile[..9] + r
    ensures |contentFile| < 9 ==> r == ""
  {
    if |contentFile| >= 9 then contentFile[9..] else ""
  }

  /** The `metadata_type` rows: the types on the version's whitelist. */
  function MetadataTypeRows(s: Store, versionId: int): (r: set<MetadataTypeRow>)
    ensures forall row :: row in r ==> row.id in VersionTypeIds(s, versionId)
    ensures forall row :: row in r <==>
              exists p :: p in s.versionTypes && p.0 == versionId && p.1 in s.metadataTypes &&
                          row == MetadataTypeRow(p.1, s.metadataTypes[p.1].name)
  {
    set p | p in s.versionTypes && p.0 == versionId && p.1 in s.metadataTypes
      :: MetadataTypeRow(p.1, s.metadataTypes[p.1].name)
  }

  /** The `metadata` rows: metadata of a whitelisted type that is attached
      to some content lying in a folder of the version. */
  function MetadataRows(s: Store, versionId: int): (r: set<MetadataRow>)
    ensures forall row :: row in r ==> row.typeId in VersionTypeIds(s, versionId)
    ensures forall row :: row in r ==>
      row.id in s.metadata && exists c :: c in ContentsInVersion(s, versionId) && (c, row.id) in s.contentMetadata
    ensures forall row :: row in r <==>
              exists k :: k in s.metadata && s.metadata[k].typeId in VersionTypeIds(s, versionId)
                          && s.metadata[k].typeId in s.metadataTypes
                          && (exists c :: c in ContentsInVersion(s, versionId) && (c, k) in s.contentMetadata)
                          && row == MetadataRow(k, s.metadata[k].name, s.metadataTypes[s.metadata[k].typeId].name,
                                                s.metadata[k].typeId)
  {
    set k | k in s.metadata && s.metadata[k].typeId in VersionTypeIds(s, versionId)
            && s.metadata[k].typeId in s.metadataTypes
            && (exists c :: c in ContentsInVersion(s, versionId) && (c, k) in s.contentMetadata)
      :: MetadataRow(k, s.metadata[k].name, s.metadataTypes[s.metadata[k].typeId].name, s.metadata[k].typeId)
  }

  /** The `folder` rows: exactly the version's folders, parent id copied. */
  function FolderRows(s: Store, versionId: int): (r: set<FolderRow>)
    ensures forall k :: k in s.folders && s.folders[k].versionId == versionId ==>
      var f := s.folders[k]; FolderRow(f.id, f.folderName, f.logoImage, f.parentId) in r
    ensures forall row :: row in r ==>
              exists k :: k in s.folders && s.folders[k].versionId == versionId &&
                          row == FolderRow(s.folders[k].id, s.folders[k].folderName,
                                           s.folders[k].logoImage, s.folders[k].parentId)
  {
    set k | k in s.folders && s.folders[k].versionId == versionId
      :: FolderRow(s.folders[k].id, s.folders[k].folderName, s.folders[k].logoImage, s.folders[k].parentId)
  }

  /** The `module` rows: exactly the modules associated with the version. */
  function ModuleRows(s: Store, versionId: int): (r: set<ModuleRow>)
    ensures forall row :: row in r <==>
              exists p :: p in s.versionModules && p.0 == versionId && p.1 in s.modules &&
                          row == ModuleRow(p.1, s.modules[p.1].moduleName, s.modules[p.1].logoImage)
  {
    set p | p in s.versionModules && p.0 == versionId && p.1 in s.modules
      :: ModuleRow(p.1, s.modules[p.1].moduleName, s.modules[p.1].logoImage)
  }

  function ExportContent(c: ContentEntry): ContentRow
  {
    ContentRow(c.id, c.title, c.description, Relativize(c.contentFile), c.publishedDate,
               c.copyrightNotes, c.rightsStatement, c.filesize)
  }

  /** The `content` rows: the contents reachable through the version's
      folders, each once, with the storage path made relative. */
  function ContentRows(s: Store, versionId: int): (r: set<ContentRow>)
    ensures forall row :: row in r <==>
              exists k :: k in ContentsInVersion(s, versionId) && k in s.contents &&
                          row == ExportContent(s.contents[k])
  {
    set k | k in ContentsInVersion(s, versionId) && k in s.contents :: ExportContent(s.contents[k])
  }

  /** The `content_metadata` rows: every metadata edge of a content in the
      version, with no metadata-type filter. */
  function ContentMetadataRows(s: Store, versionId: int): (r: set<ContentMetadataRow>)
    ensures forall row :: row in r <==>
      (row.contentId, row.metadataId) in s.contentMetadata && row.contentId in ContentsInVersion(s, versionId)
  {
    set p | p in s.contentMetadata && p.0 in ContentsInVersion(s, versionId) :: ContentMetadataRow(p.0, p.1)
  }

  /** The six row sets one build hands to the database writer. */
  datatype Snapshot = Snapshot(
    metadataTypes: set<MetadataTypeRow>, metadata: set<MetadataRow>, folders: set<FolderRow>,
    modules: set<ModuleRow>, contents: set<ContentRow>, contentMetadata: set<ContentMetadataRow>)

  /** `LibraryBuildUtil.build_library(version_id)` up to the database sink. */
  function BuildLibrary(s: Store, versionId: int): Snapshot
  {
    Snapshot(MetadataTypeRows(s, versionId), MetadataRows(s, versionId), FolderRows(s, versionId),
             ModuleRows(s, versionId), ContentRows(s, versionId), ContentMetadataRows(s, versionId))
  }

  /** Exported metadata rows are distinct by id. */
  lemma MetadataRowsDistinct(s: Store, versionId: int, r1: MetadataRow, r2: MetadataRow)
    requires Valid(s)
    requires r1 in BuildLibrary(s, versionId).metadata && r2 in BuildLibrary(s, versionId).metadata
    requires r1.id == r2.id
    ensures r1 == r2
  {
  }

  /** Exported content rows are distinct by id. */
  lemma ContentRowsDistinct(s: Store, versionId: int, r1: ContentRow, r2: ContentRow)
    requires Valid(s)
    requires r1 in BuildLibrary(s, versionId).contents && r2 in BuildLibrary(s, versionId).contents
    requires r1.id == r2.id
    ensures r1 == r2
  {
  }

  /** Referential closure of the `folder` table: every exported parent id is
      the id of another exported folder row. */
  lemma FolderParentsExported(s: Store, versionId: int, row: FolderRow)
    requires Valid(s) && ParentsInSameVersion(s)
    requires row in BuildLibrary(s, versionId).folders && row.parentId.Some?
    ensures exists parent :: parent in BuildLibrary(s, versionId).folders && parent.id == row.parentId.value
  {
    var k :| k in s.folders && s.folders[k].versionId == versionId &&
      row == FolderRow(s.folders[k].id, s.folders[k].folderName, s.folders[k].logoImage, s.folders[k].parentId);
    var pk := row.parentId.value;
    var pf := s.folders[pk];
    assert FolderRow(pf.id, pf.folderName, pf.logoImage, pf.parentId) in FolderRows(s, versionId);
  }

  /** Every `content_metadata` edge names a content exported in the
      `content` table of the same snapshot. */
  lemma EdgesReferenceExportedContents(s: Store, versionId: int, edge: ContentMetadataRow)
    requires Valid(s)
    requires edge in BuildLibrary(s, versionId).contentMetadata
    ensures exists row :: row in BuildLibrary(s, versionId).contents && row.id == edge.contentId
  {
    assert ExportContent(s.contents[edge.contentId]) in ContentRows(s, versionId);
  }

  /** A version without whitelisted metadata types exports no metadata
      types and no metadata, whatever the store holds. */
  lemma EmptyWhitelistExportsNoMetadata(s: Store, versionId: int)
    requires VersionTypeIds(s, versionId) == {}
    ensures BuildLibrary(s, versionId).metadataTypes == {} && BuildLibrary(s, versionId).metadata == {}
  {
  }

  /** The exported file path of a content uploaded through the model's
      upload callback is its bare file name. */
  lemma ExportedPathIsFileName(s: Store, versionId: int, k: int)
    requires Valid(s)
    requires k in ContentsInVersion(s, versionId) && k in s.contents
    requires s.contents[k].contentFile == Models.ContentUploadPath(s.contents[k].fileName)
    requires Models.Relative(s.contents[k].fileName)
    ensures exists row :: row in BuildLibrary(s, versionId).contents && row.id == k
    ensures forall row :: row in BuildLibrary(s, versionId).contents && row.id == k ==>
      row.filePath == s.contents[k].fileName
  {
    var c := s.contents[k];
    assert ExportContent(c) in ContentRows(s, versionId);
    assert ("contents/" + c.fileName)[9..] == c.fileName;
  }

  /** An edge may reference metadata absent from the `metadata` table: the
      edge rows ignore the version's type whitelist. */
  lemma EdgeMayOutliveWhitelist()
    ensures var s := Store(
              map[1 := MetadataType(1, "Language")], map[7 := Metadata(7, "English", 1)],
              map[3 := ContentEntry(3, "Primer", "primer.pdf", "contents/primer.pdf", None, None, None, None, 10)],
              map[5 := Folder(5, "Books", None, 2, None)], map[],
              {}, {}, {(5, 3)}, {(3, 7)});
            Valid(s) && ContentMetadataRow(3, 7) in BuildLibrary(s, 2).contentMetadata &&
            (forall row :: row in BuildLibrary(s, 2).metadata ==> row.id != 7)
  {
    var s := Store(
              map[1 := MetadataType(1, "Language")], map[7 := Metadata(7, "English", 1)],
              map[3 := ContentEntry(3, "Primer", "primer.pdf", "contents/primer.pdf", None, None, None, None, 10)],
              map[5 := Folder(5, "Books", None, 2, None)], map[],
              {}, {}, {(5, 3)}, {(3, 7)});
    assert 3 in ContentsInVersion(s, 2);
    assert VersionTypeIds(s, 2) == {};
    EmptyWhitelistExportsNoMetadata(s, 2);
  }

  /** Without `ParentsInSameVersion` an exported folder can name a parent
      that is not exported: folder 5 of version 2 whose parent is folder 4
      of version 1. */
  lemma ParentMayLieInAnotherVersion()
    ensures var s := Store(map[], map[], map[],
              map[4 := Folder(4, "Shelf", None, 1, None), 5 := Folder(5, "Books", None, 2, Some(4))], map[],
              {}, {}, {}, {});
            && Valid(s)
            && FolderRow(5, "Books", None, Some(4)) in BuildLibrary(s, 2).folders
            && (forall row :: row in BuildLibrary(s, 2).folders ==> row.id != 4)
  {
    var s := Store(map[], map[], map[],
              map[4 := Folder(4, "Shelf", None, 1, None), 5 := Folder(5, "Books", None, 2, Some(4))], map[],
              {}, {}, {}, {});
    assert s.folders[5].versionId == 2;
    assert FolderRow(5, "Books", None, Some(4)) in FolderRows(s, 2);
  }
}
