/** `MetadataProvider`: the metadata types, the metadata, and the metadata
    grouped by type name, refreshed from the server in two requests. */
module MetadataProvider {
  import opened Json
  import Seqs
  import opened FrontendTypes
  import Grouping
  import opened Providers

  /** The bucket name of a metadata type. */
  function TypeName(t: SerializedMetadataType): string
  {
    t.name
  }

  /** A metadata record belongs to the bucket of a type with its type name. */
  function SameTypeName(t: SerializedMetadataType): SerializedMetadata -> bool
  {
    (m: SerializedMetadata) => m.typeName == t.name
  }

  /** `metadata_by_type` as a value. */
  function ByType(types: seq<SerializedMetadataType>, metadata: seq<SerializedMetadata>): map<string, seq<SerializedMetadata>>
  {
    Grouping.Grouped(types, TypeName, SameTypeName, metadata)
  }

  /** There is a bucket for every type name and for nothing else; when type
      names are unique, as the database enforces, each bucket holds exactly
      the metadata with that type name, in their original order; and a
      metadata whose type name matches no type is in no bucket. */
  lemma ByTypeBuckets(types: seq<SerializedMetadataType>, metadata: seq<SerializedMetadata>)
    ensures forall name :: name in ByType(types, metadata) <==> exists t :: t in types && t.name == name
    ensures (forall a, b :: 0 <= a < b < |types| ==> types[a].name != types[b].name) ==>
              forall i :: 0 <= i < |types| ==>
                ByType(types, metadata)[types[i].name] == Seqs.Filter(metadata, SameTypeName(types[i]))
    ensures forall name, m :: name in ByType(types, metadata) && m in ByType(types, metadata)[name] ==>
              m in metadata && m.typeName == name
  {
    Grouping.GroupedKeys(types, TypeName, SameTypeName, metadata);
    if forall a, b :: 0 <= a < b < |types| ==> types[a].name != types[b].name {
      forall i | 0 <= i < |types|
        ensures types[i].name in ByType(types, metadata)
        ensures ByType(types, metadata)[types[i].name] == Seqs.Filter(metadata, SameTypeName(types[i]))
      {
        Grouping.GroupedBucket(types, TypeName, SameTypeName, metadata, i);
      }
    }
    forall name, m | name in ByType(types, metadata) && m in ByType(types, metadata)[name]
      ensures m in metadata && m.typeName == name
    {
      Grouping.GroupedMembers(types, TypeName, SameTypeName, metadata, name, m);
    }
  }

  class MetadataProvider {
    var loaded: bool
    var isError: bool
    var message: string
    var metadata: seq<SerializedMetadata>
    var metadataByType: map<string, seq<SerializedMetadata>>
    var metadataTypes: seq<SerializedMetadataType>

    /** The initial state: not loaded, no error, nothing known. */
    constructor ()
      ensures !loaded && !isError && message == ""
      ensures metadata == [] && metadataByType == map[] && metadataTypes == []
    {
      loaded := false;
      isError := false;
      message := "";
      metadata := [];
      metadataByType := map[];
      metadataTypes := [];
    }

    /** `_set_error_state`: loaded, in error, and everything emptied. */
    method SetErrorState(reason: Value)
      modifies this
      ensures loaded && isError && message == ErrorMessage(reason)
      ensures metadata == [] && metadataByType == map[] && metadataTypes == []
    {
      loaded := true;
      isError := true;
      message := ErrorMessage(reason);
      metadata := [];
      metadataByType := map[];
      metadataTypes := [];
    }

    /** The first step of `refresh_metadata`: not loaded any more. */
    method BeginRefresh()
      modifies this
      ensures !loaded
      ensures isError == old(isError) && message == old(message) && metadata == old(metadata)
      ensures metadataByType == old(metadataByType) && metadataTypes == old(metadataTypes)
    {
      loaded := false;
    }

    /** The types arrive: still not loaded, the error cleared, the types
        replaced. */
    method ReceiveTypes(types: seq<SerializedMetadataType>)
      modifies this
      ensures !loaded && !isError && message == ""
      ensures metadataTypes == types
      ensures metadata == old(metadata) && metadataByType == old(metadataByType)
    {
      loaded := false;
      isError := false;
      message := "";
      metadataTypes := types;
    }

    /** The metadata arrive: loaded, and grouped by the types received. */
    method ReceiveMetadata(ms: seq<SerializedMetadata>)
      modifies this
      ensures loaded && metadata == ms && metadataByType == ByType(metadataTypes, ms)
      ensures isError == old(isError) && message == old(message) && metadataTypes == old(metadataTypes)
    {
      loaded := true;
      metadata := ms;
      metadataByType := Grouping.GroupBy(metadataTypes, TypeName, SameTypeName, ms);
    }

    /** `refresh_metadata` as a whole, given how its two requests settle:
        the metadata request is only sent once the types have arrived. It
        always ends loaded; in error exactly when a request failed; and
        otherwise with both lists and the grouping replaced. */
    method RefreshMetadata(types: Fetched<seq<SerializedMetadataType>>, ms: Fetched<seq<SerializedMetadata>>)
      modifies this
      ensures loaded
      ensures isError <==> types.FetchFailed? || ms.FetchFailed?
      ensures types.FetchFailed? ==> message == ErrorMessage(types.reason)
      ensures types.Fetched? && ms.FetchFailed? ==> message == ErrorMessage(ms.reason)
      ensures isError ==> metadata == [] && metadataByType == map[] && metadataTypes == []
      ensures !isError ==> && message == "" && metadataTypes == types.value && metadata == ms.value
                           && metadataByType == ByType(types.value, ms.value)
    {
      BeginRefresh();
      if types.FetchFailed? {
        SetErrorState(types.reason);
        return;
      }
      ReceiveTypes(types.value);
      if ms.FetchFailed? {
        SetErrorState(ms.reason);
        return;
      }
      ReceiveMetadata(ms.value);
    }
  }
}
