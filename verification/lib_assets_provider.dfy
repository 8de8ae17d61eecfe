/** `LibraryAssetsProvider`: the library assets (logos, banners, version
    images) and the assets grouped by image group. */
module LibAssetsProvider {
  import opened Json
  import Seqs
  import opened FrontendTypes
  import Grouping
  import opened Providers

  /** `range(1, 4)`: the image groups. */
  const Groups: seq<int> := [1, 2, 3]

  function GroupKey(g: int): int
  {
    g
  }

  /** An asset belongs to the bucket of its image group. */
  function InGroup(g: int): LibraryAsset -> bool
  {
    (a: LibraryAsset) => a.imageGroup == g
  }

  /** `assets_by_group` as a value. */
  function ByGroup(assets: seq<LibraryAsset>): map<int, seq<LibraryAsset>>
  {
    Grouping.Grouped(Groups, GroupKey, InGroup, assets)
  }

  /** The buckets are exactly groups 1, 2 and 3; each holds exactly the
      assets of its group, in their original order; an asset of any other
      group is in no bucket. */
  lemma ByGroupBuckets(assets: seq<LibraryAsset>)
    ensures ByGroup(assets).Keys == {1, 2, 3}
    ensures forall g :: g in ByGroup(assets) ==> ByGroup(assets)[g] == Seqs.Filter(assets, InGroup(g))
    ensures forall g, a :: g in ByGroup(assets) && a in ByGroup(assets)[g] ==> a in assets && a.imageGroup in {1, 2, 3}
  {
    Grouping.GroupedKeys(Groups, GroupKey, InGroup, assets);
    forall k
      ensures k in ByGroup(assets) <==> k in {1, 2, 3}
    {
      if k in {1, 2, 3} {
        assert GroupKey(k) == k && k in Groups;
      }
    }
    forall g | g in ByGroup(assets)
      ensures ByGroup(assets)[g] == Seqs.Filter(assets, InGroup(g))
    {
      var i :| 0 <= i < |Groups| && Groups[i] == g;
      Grouping.GroupedBucket(Groups, GroupKey, InGroup, assets, i);
    }
    forall g, a | g in ByGroup(assets) && a in ByGroup(assets)[g]
      ensures a in assets && a.imageGroup in {1, 2, 3}
    {
      Seqs.FilterMembership(assets, InGroup(g), a);
    }
  }

  class LibAssetsProvider {
    var loaded: bool
    var isError: bool
    var message: string
    var assets: seq<LibraryAsset>
    var assetsByGroup: map<int, seq<LibraryAsset>>

    /** The initial state: not loaded, no error, no assets, no buckets. */
    constructor ()
      ensures !loaded && !isError && message == "" && assets == [] && assetsByGroup == map[]
    {
      loaded := false;
      isError := false;
      message := "";
      assets := [];
      assetsByGroup := map[];
    }

    /** `_set_error_state`: loaded, in error, the assets emptied; the buckets
        are left as they were. */
    method SetErrorState(reason: Value)
      modifies this
      ensures loaded && isError && message == ErrorMessage(reason) && assets == []
      ensures assetsByGroup == old(assetsByGroup)
    {
      loaded := true;
      isError := true;
      message := ErrorMessage(reason);
      assets := [];
    }

    /** The first step of `refresh_assets`: not loaded any more. */
    method BeginRefresh()
      modifies this
      ensures !loaded
      ensures isError == old(isError) && message == old(message)
      ensures assets == old(assets) && assetsByGroup == old(assetsByGroup)
    {
      loaded := false;
    }

    /** The assets arrive: loaded, the error cleared, the assets and their
        buckets replaced. */
    method ReceiveAssets(received: seq<LibraryAsset>)
      modifies this
      ensures loaded && !isError && message == ""
      ensures assets == received && assetsByGroup == ByGroup(received)
    {
      loaded := true;
      isError := false;
      message := "";
      assets := received;
      assetsByGroup := Grouping.GroupBy(Groups, GroupKey, InGroup, received);
    }

    /** `refresh_assets` as a whole, given how its request settles. */
    method RefreshAssets(reply: Fetched<seq<LibraryAsset>>)
      modifies this
      ensures loaded
      ensures isError <==> reply.FetchFailed?
      ensures reply.FetchFailed? ==> message == ErrorMessage(reply.reason) && assets == []
      ensures reply.FetchFailed? ==> assetsByGroup == old(assetsByGroup)
      ensures reply.Fetched? ==> message == "" && assets == reply.value && assetsByGroup == ByGroup(reply.value)
    {
      BeginRefresh();
      if reply.FetchFailed? {
        SetErrorState(reply.reason);
      } else {
        ReceiveAssets(reply.value);
      }
    }
  }
}
