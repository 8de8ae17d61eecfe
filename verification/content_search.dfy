/** What the two content-list loaders (`GlobalState.load_content_rows` and
    `ContentsProvider.load_content_rows`) compute the same way: the filters
    of a request from the search form, the display columns of a received
    page, the stale-response guard, and the ids sent when the selected rows
    are added to a folder. */
module ContentSearch {
  import opened Common
  import Text
  import Seqs
  import opened FrontendTypes
  import Urls

  /** The "active" radio of the search form. */
  datatype ActiveChoice = AllStates | ActiveOnly | InactiveOnly

  /** The "duplicatable" radio of the search form. */
  datatype DuplicatableChoice = AnyDuplicatable | DuplicatableOnly | NotDuplicatable

  /** The search form. `metadata` is an object from type name to the chosen
      metadata, its entries in key order; dates are ordered integers. */
  datatype SearchState = SearchState(
    active: ActiveChoice, copyright: string,
    fileSizeFrom: Option<int>, fileSizeTo: Option<int>, filename: string,
    metadata: seq<(string, seq<SerializedMetadata>)>,
    reviewedFrom: Option<int>, reviewedTo: Option<int>, title: string,
    yearsFrom: Option<int>, yearsTo: Option<int>)

  /** A range filter from its two bounds: dropped exactly when both bounds
      are given and the lower is not below the upper. */
  function NormalizeRange(from: Option<int>, to: Option<int>): (r: Option<Range>)
    ensures r.None? <==> from.Some? && to.Some? && from.value >= to.value
    ensures r.Some? ==> r.value == (from, to)
  {
    if from.Some? && to.Some? && from.value >= to.value then None else Some((from, to))
  }

  /** The `active` filter: none for "all". */
  function ActiveFilter(choice: ActiveChoice): (r: Option<bool>)
    ensures r.None? <==> choice == AllStates
    ensures r == Some(true) <==> choice == ActiveOnly
  {
    match choice
    case AllStates => None
    case ActiveOnly => Some(true)
    case InactiveOnly => Some(false)
  }

  /** The `duplicatable` filter: none for "all". */
  function DuplicatableFilter(choice: DuplicatableChoice): (r: Option<bool>)
    ensures r.None? <==> choice == AnyDuplicatable
    ensures r == Some(true) <==> choice == DuplicatableOnly
  {
    match choice
    case AnyDuplicatable => None
    case DuplicatableOnly => Some(true)
    case NotDuplicatable => Some(false)
  }

  /** The ids of a list of metadata, in order. */
  function Ids(ms: seq<SerializedMetadata>): (r: seq<int>)
    ensures |r| == |ms|
    ensures forall i :: 0 <= i < |ms| ==> r[i] == ms[i].id
  {
    seq(|ms|, i requires 0 <= i < |ms| => ms[i].id)
  }

  /** The chosen metadata as one list of ids: the reduce that concatenates
      each bucket's ids in key order. */
  function FlattenMetadata(buckets: seq<(string, seq<SerializedMetadata>)>): seq<int>
  {
    if |buckets| == 0 then []
    else FlattenMetadata(buckets[..|buckets| - 1]) + Ids(buckets[|buckets| - 1].1)
  }

  /** An id is sent exactly when some bucket holds a metadata with that id. */
  lemma {:induction false} FlattenMetadataMembers(buckets: seq<(string, seq<SerializedMetadata>)>, id: int)
    ensures id in FlattenMetadata(buckets)
            <==> exists b, m :: b in buckets && m in b.1 && m.id == id
  {
    if |buckets| > 0 {
      var pre := buckets[..|buckets| - 1];
      var last := buckets[|buckets| - 1];
      FlattenMetadataMembers(pre, id);
      assert buckets == pre + [last];
      if id in Ids(last.1) {
        var i :| 0 <= i < |last.1| && Ids(last.1)[i] == id;
        assert last.1[i] in last.1;
      }
      if exists b, m :: b in buckets && m in b.1 && m.id == id {
        var b, m :| b in buckets && m in b.1 && m.id == id;
        if b == last {
          var i :| 0 <= i < |last.1| && last.1[i] == m;
          assert Ids(last.1)[i] == id;
        }
      }
    }
  }

  /** The flattened list is as long as all buckets together, and it is empty
      exactly when every bucket is. */
  lemma {:induction false} FlattenMetadataEmpty(buckets: seq<(string, seq<SerializedMetadata>)>)
    ensures |FlattenMetadata(buckets)| == 0 <==> forall i :: 0 <= i < |buckets| ==> |buckets[i].1| == 0
  {
    if |buckets| > 0 {
      var pre := buckets[..|buckets| - 1];
      FlattenMetadataEmpty(pre);
      assert forall i :: 0 <= i < |pre| ==> pre[i] == buckets[i];
    }
  }

  /** The `sort` filter: `column,direction` of the first sorting, none when
      there is no sorting. */
  function SortParam(sorting: seq<Sorting>): (r: Option<string>)
    ensures r.None? <==> |sorting| == 0
    ensures r.Some? ==> var s := sorting[0];
              && |r.value| == |s.columnName| + 1 + |s.direction|
              && r.value[..|s.columnName|] == s.columnName
              && r.value[|s.columnName|] == ','
              && r.value[|s.columnName| + 1..] == s.direction
  {
    if |sorting| > 0 then Some(sorting[0].columnName + "," + sorting[0].direction) else None
  }

  /** The `content_filters` object both loaders build from the search form.
      `duplicatable` is `None` where the loader does not set it at all. */
  function BuildFilters(search: SearchState, sorting: seq<Sorting>, duplicatable: Option<DuplicatableChoice>): (r: ContentFilters)
    ensures r.title == Some(search.title) && r.copyright == Some(search.copyright)
    ensures r.filename == Some(search.filename)
    ensures r.years == NormalizeRange(search.yearsFrom, search.yearsTo)
    ensures r.fileSizes == NormalizeRange(search.fileSizeFrom, search.fileSizeTo)
    ensures r.reviewedOn == NormalizeRange(search.reviewedFrom, search.reviewedTo)
    ensures r.active == ActiveFilter(search.active)
    ensures r.metadata == Some(FlattenMetadata(search.metadata))
    ensures r.duplicatable == if duplicatable.Some? then DuplicatableFilter(duplicatable.value) else None
    ensures r.sort == SortParam(sorting)
  {
    ContentFilters(
      title := Some(search.title),
      years := NormalizeRange(search.yearsFrom, search.yearsTo),
      fileSizes := NormalizeRange(search.fileSizeFrom, search.fileSizeTo),
      reviewedOn := NormalizeRange(search.reviewedFrom, search.reviewedTo),
      filename := Some(search.filename),
      copyright := Some(search.copyright),
      active := ActiveFilter(search.active),
      metadata := Some(FlattenMetadata(search.metadata)),
      duplicatable := if duplicatable.Some? then DuplicatableFilter(duplicatable.value) else None,
      sort := SortParam(sorting))
  }

  /** What a search form puts on the wire: the file name always (even
      empty), title and copyright only when typed, the year range unless it
      is inverted, the active flag unless "all" is chosen, metadata only when
      some is chosen. */
  lemma SearchQuery(page: int, size: int, search: SearchState, sorting: seq<Sorting>, duplicatable: Option<DuplicatableChoice>)
    ensures var q := Urls.ContentPageParams(page, size, BuildFilters(search, sorting, duplicatable));
            && Urls.Lookup(q, Urls.FileName) == Some(search.filename)
            && (Urls.Lookup(q, Urls.TitleKey).Some? <==> search.title != "")
            && (Urls.Lookup(q, Urls.CopyrightKey).Some? <==> search.copyright != "")
            && (Urls.Lookup(q, Urls.Years).None? <==> search.yearsFrom.Some? && search.yearsTo.Some? && search.yearsFrom.value >= search.yearsTo.value)
            && (Urls.Lookup(q, Urls.ActiveKey).None? <==> search.active == AllStates)
            && (Urls.Lookup(q, Urls.MetadataKey).None? <==> forall i :: 0 <= i < |search.metadata| ==> |search.metadata[i].1| == 0)
  {
    Urls.ContentPageLookups(page, size, BuildFilters(search, sorting, duplicatable));
    FlattenMetadataEmpty(search.metadata);
  }

  /** The names, in order, of the metadata of type `typeName`: the list the
      display loop builds up for one column. */
  function NamesOfType(info: seq<SerializedMetadata>, typeName: string): seq<string>
  {
    if |info| == 0 then []
    else
      var m := info[|info| - 1];
      NamesOfType(info[..|info| - 1], typeName) + (if m.typeName == typeName then [m.name] else [])
  }

  /** Whether a metadata record is of the named type. */
  function TypeNamed(typeName: string): SerializedMetadata -> bool
  {
    (m: SerializedMetadata) => m.typeName == typeName
  }

  /** The names of a list of metadata, in order. */
  function Names(ms: seq<SerializedMetadata>): (r: seq<string>)
    ensures |r| == |ms|
    ensures forall i :: 0 <= i < |ms| ==> r[i] == ms[i].name
  {
    seq(|ms|, i requires 0 <= i < |ms| => ms[i].name)
  }

  /** A column lists the names of exactly the row's metadata of that type, in
      their original order. */
  lemma {:induction false} NamesOfTypeIsFilter(info: seq<SerializedMetadata>, typeName: string)
    ensures NamesOfType(info, typeName) == Names(Seqs.Filter(info, TypeNamed(typeName)))
  {
    if |info| > 0 {
      var pre := info[..|info| - 1];
      var m := info[|info| - 1];
      NamesOfTypeIsFilter(pre, typeName);
      assert info == pre + [m];
      Seqs.FilterConcat(pre, [m], TypeNamed(typeName));
      assert Seqs.Filter([m], TypeNamed(typeName)) == if m.typeName == typeName then [m] else [];
      var kept := Seqs.Filter(pre, TypeNamed(typeName));
      var extra := if m.typeName == typeName then [m] else [];
      assert Names(kept + extra) == Names(kept) + Names(extra);
    }
  }

  /** The display columns of one row, as a value: every listed type name
      maps to the `", "`-join of the row's metadata names of that type. */
  function Columns(typeNames: seq<string>, info: seq<SerializedMetadata>): map<string, string>
  {
    map name | name in typeNames :: Text.Join(NamesOfType(info, name), ", ")
  }

  /** A listed type with no metadata in the row shows an empty column. */
  lemma ColumnOfAbsentType(typeNames: seq<string>, info: seq<SerializedMetadata>, name: string)
    requires name in typeNames
    requires forall m :: m in info ==> m.typeName != name
    ensures Columns(typeNames, info)[name] == ""
  {
    NamesOfTypeIsFilter(info, name);
    Seqs.FilterNone(info, TypeNamed(name));
  }

  /** A listed type with exactly one metadata in the row shows that name. */
  lemma ColumnOfSingleType(typeNames: seq<string>, info: seq<SerializedMetadata>, name: string, k: nat)
    requires name in typeNames
    requires k < |info| && info[k].typeName == name
    requires forall j :: 0 <= j < |info| && j != k ==> info[j].typeName != name
    ensures Columns(typeNames, info)[name] == info[k].name
  {
    NamesOfTypeIsFilter(info, name);
    assert info == info[..k] + [info[k]] + info[k + 1..];
    Seqs.FilterConcat(info[..k] + [info[k]], info[k + 1..], TypeNamed(name));
    Seqs.FilterConcat(info[..k], [info[k]], TypeNamed(name));
    Seqs.FilterNone(info[..k], TypeNamed(name));
    Seqs.FilterNone(info[k + 1..], TypeNamed(name));
  }

  /** The lists the first display loop builds: for every listed type, the
      row's metadata names of that type; no other key. */
  predicate ListsFor(lists: map<string, seq<string>>, typeNames: seq<string>, info: seq<SerializedMetadata>)
  {
    && (forall name :: name in lists ==> name in typeNames)
    && (forall name :: name in typeNames ==>
          NamesOfType(info, name) == (if name in lists then lists[name] else []))
  }

  /** One more metadata extends only its own type's list. */
  lemma NamesOfTypeSnoc(info: seq<SerializedMetadata>, i: nat, name: string)
    requires i < |info|
    ensures NamesOfType(info[..i + 1], name)
            == NamesOfType(info[..i], name) + (if info[i].typeName == name then [info[i].name] else [])
  {
    assert info[..i + 1][..i] == info[..i];
  }

  /** Appending one metadata to the lists keeps them right for one more row
      element. */
  lemma ListsForSnoc(lists: map<string, seq<string>>, typeNames: seq<string>, info: seq<SerializedMetadata>, i: nat)
    requires i < |info| && ListsFor(lists, typeNames, info[..i])
    ensures var m := info[i];
            ListsFor(if m.typeName in typeNames
                     then lists[m.typeName := (if m.typeName in lists then lists[m.typeName] else []) + [m.name]]
                     else lists,
                     typeNames, info[..i + 1])
  {
    forall name | name in typeNames
      ensures NamesOfType(info[..i + 1], name)
              == NamesOfType(info[..i], name) + (if info[i].typeName == name then [info[i].name] else [])
    {
      NamesOfTypeSnoc(info, i, name);
    }
  }

  /** The first display loop: each metadata of a listed type is appended to
      the list under its type name. */
  method CollectNames(typeNames: seq<string>, info: seq<SerializedMetadata>) returns (lists: map<string, seq<string>>)
    ensures ListsFor(lists, typeNames, info)
  {
    lists := map[];
    var i := 0;
    while i < |info|
      invariant 0 <= i <= |info|
      invariant ListsFor(lists, typeNames, info[..i])
    {
      var m := info[i];
      ListsForSnoc(lists, typeNames, info, i);
      if m.typeName in typeNames {
        var sofar := if m.typeName in lists then lists[m.typeName] else [];
        lists := lists[m.typeName := sofar + [m.name]];
      }
      i := i + 1;
    }
    assert info[..i] == info;
  }

  /** The display loop over one row: collect the names per type, then join
      every listed column. */
  method DisplayColumns(typeNames: seq<string>, info: seq<SerializedMetadata>) returns (columns: map<string, string>)
    ensures columns == Columns(typeNames, info)
  {
    var lists := CollectNames(typeNames, info);
    columns := map[];
    var j := 0;
    while j < |typeNames|
      invariant 0 <= j <= |typeNames|
      invariant forall name :: name in columns <==> name in typeNames[..j]
      invariant forall name :: name in columns ==> columns[name] == Text.Join(NamesOfType(info, name), ", ")
    {
      var name := typeNames[j];
      columns := columns[name := Text.Join(if name in lists then lists[name] else [], ", ")];
      assert typeNames[..j + 1] == typeNames[..j] + [name];
      j := j + 1;
    }
    assert typeNames[..j] == typeNames;
  }

  /** A received row together with its display columns. */
  datatype DisplayRow = DisplayRow(content: SerializedContent, columns: map<string, string>)

  /** The display rows of a page, as a value. */
  function DisplayRows(rows: seq<SerializedContent>, typeNames: seq<string>): (r: seq<DisplayRow>)
    ensures |r| == |rows|
    ensures forall i :: 0 <= i < |rows| ==> r[i].content == rows[i]
    ensures forall i :: 0 <= i < |rows| ==> r[i].columns.Keys == set name | name in typeNames
  {
    seq(|rows|, i requires 0 <= i < |rows| => DisplayRow(rows[i], Columns(typeNames, rows[i].metadataInfo)))
  }

  /** The `map` over the received rows. */
  method MakeDisplayRows(rows: seq<SerializedContent>, typeNames: seq<string>) returns (display: seq<DisplayRow>)
    ensures display == DisplayRows(rows, typeNames)
  {
    display := [];
    var i := 0;
    while i < |rows|
      invariant 0 <= i <= |rows|
      invariant display == DisplayRows(rows[..i], typeNames)
    {
      var columns := DisplayColumns(typeNames, rows[i].metadataInfo);
      display := display + [DisplayRow(rows[i], columns)];
      i := i + 1;
    }
    assert rows[..i] == rows;
  }

  /** The stale-response guard: a response is applied only when its request
      was sent no earlier than the last applied one. */
  predicate Accepts(lastRequestTimestamp: int, requestTimestamp: int)
  {
    requestTimestamp >= lastRequestTimestamp
  }

  /** The timestamp and page shown after responses arrive in the given
      order, each carrying the timestamp of its request. */
  function Settle<P>(last: int, shown: P, replies: seq<(int, P)>): (int, P)
  {
    if |replies| == 0 then (last, shown)
    else
      var before := Settle(last, shown, replies[..|replies| - 1]);
      var reply := replies[|replies| - 1];
      if Accepts(before.0, reply.0) then reply else before
  }

  /** Whatever order responses arrive in, the shown timestamp is the latest
      request timestamp seen (never below the start), and the shown page is
      the response of a request with that timestamp: the latest to arrive
      among them. */
  lemma {:induction false} SettleShowsLatest<P>(last: int, shown: P, replies: seq<(int, P)>)
    ensures var s := Settle(last, shown, replies);
            && s.0 >= last
            && (forall i :: 0 <= i < |replies| ==> replies[i].0 <= s.0)
            && (s == (last, shown) ||
                exists i :: 0 <= i < |replies| && replies[i] == s
                            && forall j :: i < j < |replies| ==> replies[j].0 < s.0)
  {
    if |replies| > 0 {
      var pre := replies[..|replies| - 1];
      var n := |replies| - 1;
      SettleShowsLatest(last, shown, pre);
      var before := Settle(last, shown, pre);
      assert forall i :: 0 <= i < n ==> replies[i] == pre[i];
      if !Accepts(before.0, replies[n].0) && before != (last, shown) {
        var i :| 0 <= i < |pre| && pre[i] == before && forall j :: i < j < |pre| ==> pre[j].0 < before.0;
        assert replies[i] == before;
      }
    }
  }

  /** The ids `GlobalState.add_selected_to_folder` sends: the ids of the
      loaded rows at the selected indices, skipping indices with no row. */
  function SelectedIds(selection: seq<int>, loaded: seq<SerializedContent>): seq<int>
  {
    if |selection| == 0 then []
    else
      var idx := selection[|selection| - 1];
      SelectedIds(selection[..|selection| - 1], loaded) + (if 0 <= idx < |loaded| then [loaded[idx].id] else [])
  }

  /** An id is sent exactly when some selected index holds a row with it; at
      most one id per selected index. */
  lemma {:induction false} SelectedIdsMembers(selection: seq<int>, loaded: seq<SerializedContent>, id: int)
    ensures id in SelectedIds(selection, loaded)
            <==> exists k :: 0 <= k < |selection| && 0 <= selection[k] < |loaded| && loaded[selection[k]].id == id
    ensures |SelectedIds(selection, loaded)| <= |selection|
  {
    if |selection| > 0 {
      var n := |selection| - 1;
      var pre := selection[..n];
      SelectedIdsMembers(pre, loaded, id);
      assert forall k :: 0 <= k < n ==> selection[k] == pre[k];
    }
  }

  /** The ids `ContentsProvider.add_selected_to_folder` sends: one per
      selected index, or nothing at all (the map throws) when an index holds
      no row. */
  function SelectedIdsStrict(selection: seq<int>, loaded: seq<SerializedContent>): (r: Option<seq<int>>)
    ensures r.Some? ==> |r.value| == |selection|
  {
    if |selection| == 0 then Some([])
    else
      var idx := selection[|selection| - 1];
      var before := SelectedIdsStrict(selection[..|selection| - 1], loaded);
      if before.None? || !(0 <= idx < |loaded|) then None else Some(before.value + [loaded[idx].id])
  }

  /** The strict version throws exactly when some selected index is out of
      range, and otherwise sends what the skipping version sends. */
  lemma {:induction false} SelectedIdsAgree(selection: seq<int>, loaded: seq<SerializedContent>)
    ensures SelectedIdsStrict(selection, loaded).None?
            <==> exists k :: 0 <= k < |selection| && !(0 <= selection[k] < |loaded|)
    ensures SelectedIdsStrict(selection, loaded).Some? ==>
              SelectedIdsStrict(selection, loaded).value == SelectedIds(selection, loaded)
  {
    if |selection| > 0 {
      var n := |selection| - 1;
      SelectedIdsAgree(selection[..n], loaded);
      assert forall k :: 0 <= k < n ==> selection[k] == selection[..n][k];
    }
  }
}
