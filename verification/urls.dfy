/** The client's request builder for a page of contents, and the unwrapping
    of the response envelope every API call goes through. */
module Urls {
  import opened Common
  import opened Json
  import Text
  import opened FrontendTypes
  import opened StandardizeFormat

  /** The keys the content-page builder can emit, in the order it emits them. */
  datatype ParamKey = Page | Size | TitleKey | Years | FileName | CopyrightKey | ActiveKey | MetadataKey

  /** The key as it appears in the query string. */
  function KeyName(k: ParamKey): string
  {
    match k
    case Page => "page"
    case Size => "size"
    case TitleKey => "title"
    case Years => "years"
    case FileName => "file_name"
    case CopyrightKey => "copyright"
    case ActiveKey => "active"
    case MetadataKey => "metadata"
  }

  /** The key a query-string name stands for. */
  function KeyOf(name: string): Option<ParamKey>
  {
    if name == "page" then Some(Page)
    else if name == "size" then Some(Size)
    else if name == "title" then Some(TitleKey)
    else if name == "years" then Some(Years)
    else if name == "file_name" then Some(FileName)
    else if name == "copyright" then Some(CopyrightKey)
    else if name == "active" then Some(ActiveKey)
    else if name == "metadata" then Some(MetadataKey)
    else None
  }

  /** Every query-string name reads back as its own key, so no two keys share
      a name; and none of the filters the builder leaves out has a name. */
  lemma KeyNames()
    ensures forall k :: KeyOf(KeyName(k)) == Some(k)
    ensures forall name <- ["file_sizes", "reviewed_on", "duplicatable", "sort"] :: KeyOf(name) == None
  {
  }

  /** A query parameter: key and value. */
  type Param = (ParamKey, string)

  function Rank(key: ParamKey): nat
  {
    match key
    case Page => 0
    case Size => 1
    case TitleKey => 2
    case Years => 3
    case FileName => 4
    case CopyrightKey => 5
    case ActiveKey => 6
    case MetadataKey => 7
  }

  /** Keys appear in strictly increasing rank order. */
  predicate Ordered(params: seq<Param>)
  {
    |params| <= 1 ||
    (Ordered(params[..|params| - 1]) && Rank(params[|params| - 2].0) < Rank(params[|params| - 1].0))
  }

  /** Rank order makes every key occur at most once, in the order of `Rank`. */
  lemma {:induction false} OrderedIncreasing(params: seq<Param>)
    requires Ordered(params)
    ensures forall i, j :: 0 <= i < j < |params| ==> Rank(params[i].0) < Rank(params[j].0)
    decreases |params|
  {
    if |params| > 1 {
      var pre := params[..|params| - 1];
      OrderedIncreasing(pre);
      forall i, j | 0 <= i < j < |params|
        ensures Rank(params[i].0) < Rank(params[j].0)
      {
        if j < |params| - 1 {
          assert params[i] == pre[i] && params[j] == pre[j];
        } else if i < |params| - 2 {
          assert params[i] == pre[i] && params[|params| - 2] == pre[|params| - 2];
        }
      }
    }
  }

  /** The value of the parameter with key `key` (the last one, were there several). */
  function Lookup(params: seq<Param>, key: ParamKey): Option<string>
  {
    if |params| == 0 then None
    else if params[|params| - 1].0 == key then Some(params[|params| - 1].1)
    else Lookup(params[..|params| - 1], key)
  }

  /** `if (...) params.push([key, value])`, on values: `None` where the push
      is skipped. */
  function Push(params: seq<Param>, key: ParamKey, value: Option<string>): (r: seq<Param>)
    ensures params <= r
  {
    if value.Some? then params + [(key, value.value)] else params
  }

  /** After a push the pushed key is found, and every other key is found as before. */
  lemma PushLookup(params: seq<Param>, key: ParamKey, value: Option<string>, other: ParamKey)
    ensures Lookup(Push(params, key, value), other)
            == if value.Some? && other == key then value else Lookup(params, other)
  {
    if value.Some? {
      assert Push(params, key, value)[..|params|] == params;
    }
  }

  /** Every key of `params` ranks below `r`. */
  predicate Below(params: seq<Param>, r: int)
  {
    |params| > 0 ==> Rank(params[|params| - 1].0) < r
  }

  /** A push whose key ranks above every key so far keeps rank order. */
  lemma PushOrdered(params: seq<Param>, key: ParamKey, value: Option<string>)
    requires Ordered(params) && Below(params, Rank(key))
    ensures Ordered(Push(params, key, value)) && Below(Push(params, key, value), Rank(key) + 1)
  {
    if value.Some? {
      assert Push(params, key, value)[..|params|] == params;
    }
  }

  /** How a template string renders a bound: `null` or the number. */
  function BoundText(b: Option<int>): string
  {
    if b.None? then "null" else Text.IntToString(b.value)
  }

  /** `${range[0]},${range[1]}`. */
  function RangeText(range: Range): string
  {
    BoundText(range.0) + "," + BoundText(range.1)
  }

  /** The ids joined with commas. */
  function IdsText(ids: seq<int>): string
  {
    Text.Join(seq(|ids|, i requires 0 <= i < |ids| => Text.IntToString(ids[i])), ",")
  }

  /** The six filter pushes after page and size: the value each pushes,
      `None` where it is skipped. */
  datatype Pushes = Pushes(title: Option<string>, years: Option<string>, fileName: Option<string>,
                           copyright: Option<string>, active: Option<string>, metadata: Option<string>)

  /** The value pushed under a filter key. */
  function Pushed(p: Pushes, k: ParamKey): Option<string>
  {
    match k
    case TitleKey => p.title
    case Years => p.years
    case FileName => p.fileName
    case CopyrightKey => p.copyright
    case ActiveKey => p.active
    case MetadataKey => p.metadata
    case _ => None
  }

  /** The pushes in the order the builder makes them: title, years, file
      name, copyright, active, metadata. */
  function PushAll(params: seq<Param>, p: Pushes): seq<Param>
  {
    Push(Push(Push(Push(Push(Push(params, TitleKey, p.title), Years, p.years), FileName, p.fileName),
                   CopyrightKey, p.copyright), ActiveKey, p.active), MetadataKey, p.metadata)
  }

  /** The filter pushes keep rank order after page and size. */
  lemma PushAllOrdered(params: seq<Param>, p: Pushes)
    requires Ordered(params) && Below(params, Rank(TitleKey))
    ensures Ordered(PushAll(params, p))
  {
    var p1 := Push(params, TitleKey, p.title);
    var p2 := Push(p1, Years, p.years);
    var p3 := Push(p2, FileName, p.fileName);
    var p4 := Push(p3, CopyrightKey, p.copyright);
    var p5 := Push(p4, ActiveKey, p.active);
    PushOrdered(params, TitleKey, p.title);
    PushOrdered(p1, Years, p.years);
    PushOrdered(p2, FileName, p.fileName);
    PushOrdered(p3, CopyrightKey, p.copyright);
    PushOrdered(p4, ActiveKey, p.active);
    PushOrdered(p5, MetadataKey, p.metadata);
  }

  /** After the filter pushes, each filter key carries its value exactly when
      it was pushed; any other key is looked up as before. */
  lemma PushAllLookup(params: seq<Param>, p: Pushes, k: ParamKey)
    ensures Lookup(PushAll(params, p), k) == if Pushed(p, k).Some? then Pushed(p, k) else Lookup(params, k)
  {
    var p1 := Push(params, TitleKey, p.title);
    var p2 := Push(p1, Years, p.years);
    var p3 := Push(p2, FileName, p.fileName);
    var p4 := Push(p3, CopyrightKey, p.copyright);
    var p5 := Push(p4, ActiveKey, p.active);
    PushLookup(params, TitleKey, p.title, k);
    PushLookup(p1, Years, p.years, k);
    PushLookup(p2, FileName, p.fileName, k);
    PushLookup(p3, CopyrightKey, p.copyright, k);
    PushLookup(p4, ActiveKey, p.active, k);
    PushLookup(p5, MetadataKey, p.metadata, k);
  }

  /** A text filter that is set and non-empty. */
  function NonEmpty(s: Option<string>): Option<string>
  {
    if s.Some? && s.value != "" then s else None
  }

  /** What each filter pushes: title and copyright only when non-empty, the
      years as `from,to` when given, the file name whenever it is given (even
      empty), the active flag as `true`/`false`, and the metadata ids only
      when some are selected. */
  function PushesOf(f: ContentFilters): Pushes
  {
    Pushes(NonEmpty(f.title),
           if f.years.Some? then Some(RangeText(f.years.value)) else None,
           f.filename,
           NonEmpty(f.copyright),
           if f.active.Some? then Some(if f.active.value then "true" else "false") else None,
           if f.metadata.Some? && |f.metadata.value| > 0 then Some(IdsText(f.metadata.value)) else None)
  }

  /** Page and size, always sent first. */
  function BaseParams(page: int, size: int): seq<Param>
  {
    [(Page, Text.IntToString(page)), (Size, Text.IntToString(size))]
  }

  /** The query parameters `APP_URLS.CONTENT_PAGE` builds, as a value. */
  function ContentPageParams(page: int, size: int, f: ContentFilters): seq<Param>
  {
    PushAll(BaseParams(page, size), PushesOf(f))
  }

  /** The base is ordered, and only page and size are found in it. */
  lemma BaseParamsFacts(page: int, size: int, k: ParamKey)
    ensures Ordered(BaseParams(page, size)) && Below(BaseParams(page, size), Rank(TitleKey))
    ensures Lookup(BaseParams(page, size), k)
            == if k == Size then Some(Text.IntToString(size)) else if k == Page then Some(Text.IntToString(page)) else None
  {
    var base := BaseParams(page, size);
    var first := base[..1];
    assert first == [base[0]] && first[..0] == [];
    assert Ordered(first);
    assert Lookup(first, k) == if k == Page then Some(Text.IntToString(page)) else None;
    assert base[..|base| - 1] == first;
  }

  /** The parameters are built in rank order. */
  lemma ContentPageOrdered(page: int, size: int, f: ContentFilters)
    ensures Ordered(ContentPageParams(page, size, f))
  {
    BaseParamsFacts(page, size, Page);
    PushAllOrdered(BaseParams(page, size), PushesOf(f));
  }

  /** Page and size lead, and no key occurs twice: ranks strictly increase. */
  lemma ContentPageShape(page: int, size: int, f: ContentFilters)
    ensures var r := ContentPageParams(page, size, f);
            && |r| >= 2
            && r[0] == (Page, Text.IntToString(page)) && r[1] == (Size, Text.IntToString(size))
            && forall i, j :: 0 <= i < j < |r| ==> Rank(r[i].0) < Rank(r[j].0)
  {
    var r := ContentPageParams(page, size, f);
    ContentPageOrdered(page, size, f);
    OrderedIncreasing(r);
    assert BaseParams(page, size) <= r;
  }

  /** Each filter key carries what its filter pushes, and nothing when the
      filter is skipped. */
  lemma ContentPageLookup(page: int, size: int, f: ContentFilters, k: ParamKey)
    requires k != Page && k != Size
    ensures Lookup(ContentPageParams(page, size, f), k) == Pushed(PushesOf(f), k)
  {
    BaseParamsFacts(page, size, k);
    PushAllLookup(BaseParams(page, size), PushesOf(f), k);
  }

  /** Each filter is sent exactly when it is set (title and copyright when
      non-empty, metadata when some id is selected), with its rendered value. */
  lemma ContentPageLookups(page: int, size: int, f: ContentFilters)
    ensures var r := ContentPageParams(page, size, f);
            && Lookup(r, TitleKey) == (if f.title.Some? && f.title.value != "" then f.title else None)
            && Lookup(r, Years) == (if f.years.Some? then Some(RangeText(f.years.value)) else None)
            && Lookup(r, FileName) == f.filename
            && Lookup(r, CopyrightKey) == (if f.copyright.Some? && f.copyright.value != "" then f.copyright else None)
            && Lookup(r, ActiveKey) == (if f.active.Some? then Some(if f.active.value then "true" else "false") else None)
            && Lookup(r, MetadataKey) == (if f.metadata.Some? && |f.metadata.value| > 0 then Some(IdsText(f.metadata.value)) else None)
  {
    ContentPageLookup(page, size, f, TitleKey);
    ContentPageLookup(page, size, f, Years);
    ContentPageLookup(page, size, f, FileName);
    ContentPageLookup(page, size, f, CopyrightKey);
    ContentPageLookup(page, size, f, ActiveKey);
    ContentPageLookup(page, size, f, MetadataKey);
  }

  /** `APP_URLS.CONTENT_PAGE`: builds the query parameters by successive
      pushes; absent filters are as if none were given. */
  method ContentPage(page: int, size: int, filters: Option<ContentFilters>) returns (params: seq<Param>)
    ensures params == ContentPageParams(page, size, if filters.Some? then filters.value else NoFilters)
  {
    var f := if filters.Some? then filters.value else NoFilters;
    ghost var p := PushesOf(f);
    params := [(Page, Text.IntToString(page)), (Size, Text.IntToString(size))];
    assert params == BaseParams(page, size);
    if f.title.Some? && f.title.value != "" {
      params := params + [(TitleKey, f.title.value)];
    }
    ghost var p1 := Push(BaseParams(page, size), TitleKey, p.title);
    assert params == p1;
    if f.years.Some? {
      params := params + [(Years, RangeText(f.years.value))];
    }
    ghost var p2 := Push(p1, Years, p.years);
    assert params == p2;
    if f.filename.Some? {
      params := params + [(FileName, f.filename.value)];
    }
    ghost var p3 := Push(p2, FileName, p.fileName);
    assert params == p3;
    if f.copyright.Some? && f.copyright.value != "" {
      params := params + [(CopyrightKey, f.copyright.value)];
    }
    ghost var p4 := Push(p3, CopyrightKey, p.copyright);
    assert params == p4;
    if f.active.Some? {
      params := params + [(ActiveKey, if f.active.value then "true" else "false")];
    }
    ghost var p5 := Push(p4, ActiveKey, p.active);
    assert params == p5;
    if f.metadata.Some? && |f.metadata.value| > 0 {
      params := params + [(MetadataKey, IdsText(f.metadata.value))];
    }
    assert params == Push(p5, MetadataKey, p.metadata);
  }

  /** Why a request's promise is rejected. */
  datatype Rejection =
    | ErrorValue(error: Value)     // the envelope reported failure: its `error`
    | HttpResponse(reply: Reply)   // the server answered with a non-2xx status
    | NoResponse                   // no response at all: `err.response` is undefined
    | TypeErrorThrown              // the body is null or undefined, so reading `success` throws

  datatype Settled = Resolved(value: Value) | Rejected(reason: Rejection)

  /** The statuses the HTTP client treats as success. */
  predicate Succeeded(status: int)
  {
    200 <= status < 300
  }

  /** `get_data`: the settled promise for the response to a GET (`None` when
      no response arrived). */
  function GetData(response: Option<Reply>): (r: Settled)
    ensures response.None? ==> r == Rejected(NoResponse)
    ensures response.Some? && !Succeeded(response.value.status) ==> r == Rejected(HttpResponse(response.value))
    ensures r.Resolved? <==> response.Some? && Succeeded(response.value.status)
                             && response.value.body !in [Null, Undefined]
                             && JsTruthy(Get(response.value.body, "success"))
    ensures r.Resolved? ==> r.value == Get(response.value.body, "data")
  {
    if response.None? then Rejected(NoResponse)
    else
      var reply := response.value;
      if !Succeeded(reply.status) then Rejected(HttpResponse(reply))
      else if reply.body == Null || reply.body == Undefined then Rejected(TypeErrorThrown)
      else if JsTruthy(Get(reply.body, "success")) then Resolved(Get(reply.body, "data"))
      else Rejected(ErrorValue(Get(reply.body, "error")))
  }

  /** An envelope built by `build_response` with a 2xx status is unwrapped:
      its data on success, its error otherwise. */
  lemma GetDataUnwrapsEnvelope(data: Value, status: int, success: bool, error: Value)
    requires Succeeded(status)
    ensures GetData(Some(BuildResponse(data, status, success, error)))
            == if success then Resolved(data) else Rejected(ErrorValue(error))
  {
  }

  /** A response the exception handler rewrote never resolves: with an error
      status it is rejected as a whole; should its status be 2xx, it is
      rejected with the body the framework had produced. */
  lemma GetDataOfHandledException(previous: Value, status: int)
    ensures GetData(Some(Reply(status, ErrorEnvelope(previous)))).Rejected?
    ensures Succeeded(status) ==> GetData(Some(Reply(status, ErrorEnvelope(previous)))) == Rejected(ErrorValue(previous))
  {
  }
}
