/** The records the browser client receives from the API and keeps in its
    state. Nullable fields are `Option`s; dates are ordered integers. */
module FrontendTypes {
  import opened Common

  datatype SerializedMetadata = SerializedMetadata(id: int, name: string, typeId: int, typeName: string)

  datatype SerializedMetadataType = SerializedMetadataType(id: int, name: string)

  /** A content record. The content form also reads the original source,
      the additional notes and the duplicatable flag, which the server sends with
      every field of the model. */
  datatype SerializedContent = SerializedContent(
    id: int, fileName: string, fileSize: Option<int>, contentFile: string, title: string,
    description: Option<string>, modifiedOn: string, reviewedOn: string,
    copyright: Option<string>, rightsStatement: Option<string>, active: bool,
    metadata: seq<int>, metadataInfo: seq<SerializedMetadata>, publishedYear: Option<string>,
    originalSource: Option<string>, additionalNotes: Option<string>, duplicatable: bool)

  datatype LibraryAsset = LibraryAsset(id: int, imageFile: Option<string>, imageGroup: int)

  datatype LibraryFolder = LibraryFolder(id: int, folderName: string, version: int, parent: Option<int>)

  datatype LibraryVersion = LibraryVersion(id: int, libraryName: string, versionNumber: string)

  /** A lower and an upper bound, each possibly null. */
  type Range = (Option<int>, Option<int>)

  /** The filters of one content-list request; an absent member is `None`. */
  datatype ContentFilters = ContentFilters(
    title: Option<string>, years: Option<Range>, fileSizes: Option<Range>,
    reviewedOn: Option<Range>, filename: Option<string>, copyright: Option<string>,
    active: Option<bool>, metadata: Option<seq<int>>, duplicatable: Option<bool>,
    sort: Option<string>)

  /** `{}`: no filter set. */
  const NoFilters := ContentFilters(None, None, None, None, None, None, None, None, None, None)

  /** One column sort of the data grid. */
  datatype Sorting = Sorting(columnName: string, direction: string)

  /** Whether a metadata record carries the given id. */
  function HasId(id: int): SerializedMetadata -> bool
  {
    (m: SerializedMetadata) => m.id == id
  }
}
