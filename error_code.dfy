/**
  src/error.ts: `errCode`, which pulls a `code` out of anything thrown and
  answers with it when it is a number or a string, and with `''` otherwise.
 */
module ErrorCode {
  import opened JsValues

  /** What errCode returns: `string | number`. */
  datatype Code = NumCode(n: int) | StrCode(s: string)

  /** The JS value a code stands for. */
  function CodeValue(c: Code): JsValue {
    match c
    case NumCode(n) => Num(n)
    case StrCode(s) => Str(s)
  }

  /** errCode. */
  function ErrCode(obj: JsValue): (r: Code)
    ensures r == StrCode("") || (obj.Obj? && "code" in obj.props && obj.props["code"] == CodeValue(r))
  {
    if TypeOf(obj) != "object" || obj == Null || "code" !in obj.props then StrCode("")
    else
      var code := obj.props["code"];
      if TypeOf(code) == "number" then NumCode(code.n)
      else if TypeOf(code) == "string" then StrCode(code.s)
      else StrCode("")
  }

  /** Anything that is not an object, `null`, and an object without `code` give `''`. */
  lemma ErrCodeWithoutCode(obj: JsValue)
    requires !obj.Obj? || "code" !in obj.props
    ensures ErrCode(obj) == StrCode("")
  {
  }

  /** A numeric or string `code` is returned as it is; a `code` of any other type gives `''`. */
  lemma ErrCodeByCodeType(props: map<string, JsValue>)
    requires "code" in props
    ensures props["code"].Num? ==> ErrCode(Obj(props)) == NumCode(props["code"].n)
    ensures props["code"].Str? ==> ErrCode(Obj(props)) == StrCode(props["code"].s)
    ensures !props["code"].Num? && !props["code"].Str? ==> ErrCode(Obj(props)) == StrCode("")
  {
  }

  /** Whatever else an error object carries, a number or string stored as its `code` comes back out. */
  lemma ErrCodeRecoversCode(c: Code, others: map<string, JsValue>)
    ensures ErrCode(Obj(others["code" := CodeValue(c)])) == c
  {
  }
}
