/** The three-state lifecycle of one asynchronous operation
    (`src/types/Result.ts`), and its encoding as the tagged JavaScript object
    whose `status` field discriminates the variant. */
module Results {
  import opened Options

  /** Exactly one of: in progress, finished with a payload, failed with a
      message. */
  datatype Result<+T> =
    | Loading
    | Success(data: T)
    | Error(error: string)

  /** The discriminant strings of the three variants. */
  const LoadingTag: string := "loading"
  const SuccessTag: string := "success"
  const ErrorTag: string := "error"

  /** A JavaScript object of the shape `{ status, data?, error? }`: the
      fields a consumer can read off a `Result<T>` value at run time. */
  datatype Tagged<T> = Tagged(status: string, data: Option<T>, error: Option<string>)

  /** The object literal the screens build for each variant. */
  function ToTagged<T>(r: Result<T>): (t: Tagged<T>)
    ensures t.status in {LoadingTag, SuccessTag, ErrorTag}
    ensures t.data.Some? <==> r.Success?
    ensures t.error.Some? <==> r.Error?
  {
    match r
    case Loading => Tagged(LoadingTag, None, None)
    case Success(d) => Tagged(SuccessTag, Some(d), None)
    case Error(e) => Tagged(ErrorTag, None, Some(e))
  }

  /** Reads a tagged object back as a `Result`, rejecting every shape the
      union type does not admit (an unknown status, a missing payload, or a
      payload on the wrong variant). */
  function FromTagged<T>(t: Tagged<T>): (r: Option<Result<T>>)
    ensures r.Some? ==> (r.value.Loading? <==> t.status == LoadingTag)
    ensures r.Some? ==> (r.value.Success? <==> t.status == SuccessTag)
    ensures r.Some? ==> (r.value.Error? <==> t.status == ErrorTag)
  {
    if t.status == LoadingTag && t.data.None? && t.error.None? then Some(Loading)
    else if t.status == SuccessTag && t.data.Some? && t.error.None? then Some(Success(t.data.value))
    else if t.status == ErrorTag && t.data.None? && t.error.Some? then Some(Error(t.error.value))
    else None
  }

  /** The discriminant alone determines the variant, and the encoding loses
      nothing: decoding an encoded result gives it back. */
  lemma DecodeEncode<T>(r: Result<T>)
    ensures FromTagged(ToTagged(r)) == Some(r)
  {
  }

  /** Every well-formed tagged object is the encoding of exactly the result
      it decodes to. */
  lemma EncodeDecode<T>(t: Tagged<T>)
    requires FromTagged(t).Some?
    ensures ToTagged(FromTagged(t).value) == t
  {
  }

  /** Two results with the same tagged encoding are equal. */
  lemma EncodingInjective<T>(a: Result<T>, b: Result<T>)
    requires ToTagged(a) == ToTagged(b)
    ensures a == b
  {
    DecodeEncode(a);
    DecodeEncode(b);
  }
}
