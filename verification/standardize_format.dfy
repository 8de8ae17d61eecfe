/** The response envelope every JSON endpoint answers with
    (`{success, data, error}`), and the exception handler that wraps the
    framework's error responses in the same envelope. */
module StandardizeFormat {
  import opened Json

  const HttpOk := 200

  /** A response as `build_response` constructs it: a status and a body. */
  datatype Reply = Reply(status: int, body: Value)

  /** `build_response(data=None, status=200, success=True, error=None)`. */
  function BuildResponse(data: Value := Null, status: int := HttpOk, success: bool := true,
                         error: Value := Null): (r: Reply)
    ensures r.status == status
    ensures r.body.Obj? && Keys(r.body.entries) == ["success", "data", "error"]
    ensures Get(r.body, "success") == Bool(success)
    ensures Get(r.body, "data") == data && Get(r.body, "error") == error
  {
    var e := [("success", Bool(success)), ("data", data), ("error", error)];
    assert e[..2][..1] == [("success", Bool(success))] && e[..2] == [("success", Bool(success)), ("data", data)];
    assert Lookup(e, "success") == Lookup(e[..2], "success") == Lookup(e[..2][..1], "success");
    assert Lookup(e, "data") == Lookup(e[..2], "data");
    Reply(status, Obj(e))
  }

  /** With every argument left at its default the envelope reports success
      with status 200 and null data and error. */
  lemma BuildResponseDefaults()
    ensures BuildResponse() == Reply(200, Obj([("success", Bool(true)), ("data", Null), ("error", Null)]))
  {
  }

  /** The body the exception handler puts in place of the framework's body. */
  function ErrorEnvelope(previous: Value): (r: Value)
    ensures r.Obj? && Keys(r.entries) == ["data", "error", "success"]
    ensures Get(r, "data") == Null && Get(r, "error") == previous && Get(r, "success") == Bool(false)
  {
    var e := [("data", Null), ("error", previous), ("success", Bool(false))];
    assert e[..2][..1] == [("data", Null)] && e[..2] == [("data", Null), ("error", previous)];
    assert Lookup(e, "data") == Lookup(e[..2], "data") == Lookup(e[..2][..1], "data");
    assert Lookup(e, "error") == Lookup(e[..2], "error");
    Obj(e)
  }

  /** A framework response object; the handler rewrites its `data` in place. */
  class Response {
    var status: int
    var data: Value

    constructor (data: Value, status: int)
      ensures this.data == data && this.status == status
    {
      this.data := data;
      this.status := status;
    }
  }

  /** `standard_exception_handler`: `framework` is what the framework's own
      `exception_handler` returned for the exception (null when it does not
      handle it). A response keeps its status and gets its body wrapped; null
      is passed through. */
  method StandardExceptionHandler(framework: Response?) returns (r: Response?)
    modifies framework
    ensures r == framework
    ensures framework != null ==> framework.data == ErrorEnvelope(old(framework.data))
    ensures framework != null ==> framework.status == old(framework.status)
  {
    if framework != null {
      framework.data := ErrorEnvelope(framework.data);
    }
    r := framework;
  }
}
