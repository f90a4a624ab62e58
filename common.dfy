/** Small value types shared by every module of the model. */
module Common {

  /** Python's `Optional[T]`: `None` or a present value. */
  datatype Option<+T> = None | Some(value: T)

  /** The exceptions the modelled code can see.  `RequestException` stands for
      `requests.RequestException` and all of its subclasses (including the ones
      that also derive from `ValueError`); `ValueError` for a `ValueError` that
      is not a `RequestException`; `KeyError` is what pandas raises from
      `set_index` on a missing column; `OtherError` is anything else. */
  datatype Exception = RequestException | ValueError | KeyError | OtherError

  /** The outcome of a Python call: it either returns a value or raises. */
  datatype Outcome<+T> = Returned(value: T) | Raised(exc: Exception)

  /** The `urls: Union[str, List[str]]` argument of both parsers. */
  datatype UrlArg = OneUrl(url: string) | UrlList(urls: seq<string>)

  /** A single URL string is treated as a one-element list. */
  function AsList(arg: UrlArg): seq<string>
  {
    match arg
    case OneUrl(u) => [u]
    case UrlList(us) => us
  }
}
