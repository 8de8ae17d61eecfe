/** `get_metadata`: the metadata record with a given id. */
module Lookup {
  import opened Common
  import Seqs
  import opened FrontendTypes

  /** The first element with the id, `None` when there is none. */
  function GetMetadata(metadata: seq<SerializedMetadata>, id: int): (r: Option<SerializedMetadata>)
    ensures r.Some? ==> r.value.id == id && r.value in metadata
    ensures r.None? <==> forall i :: 0 <= i < |metadata| ==> metadata[i].id != id
    ensures r.Some? ==> exists i :: 0 <= i < |metadata| && metadata[i] == r.value
                                    && forall j :: 0 <= j < i ==> metadata[j].id != id
  {
    var filtered := Seqs.Filter(metadata, HasId(id));
    Seqs.FilterHead(metadata, HasId(id));
    if |filtered| == 0 then None else Some(filtered[0])
  }
}
