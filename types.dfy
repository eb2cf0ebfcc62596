/** Values shared by the gfwlist classifier, the bucket builder and the provider. */
module Types {

  datatype Option<T> = None | Some(value: T)

  datatype Result<T, E> = Ok(value: T) | Err(error: E)

  /** Go's runtime panic is the one failure of the classifier that is not a
      value: slicing `pairs[len(pairs)-2:]` of a one-label hostname. It unwinds
      the refresh goroutine, so it is carried up as an outcome of its own. */
  datatype Outcome<T> = Done(value: T) | Panic

  newtype byte = x: int | 0 <= x < 256

  /** The classification tag `t` with its four constants. */
  datatype Tag = Unknown | IP | Domain | DomainKeyword

  /** The pair `(t, string)` that parseLine and tryGetDomain return. */
  datatype Classification = Classification(tag: Tag, value: string)

  /** The library calls the core makes, left uninterpreted:
      - unescape: url.QueryUnescape, None for its error result;
      - hostname: url.Parse followed by Hostname(), None when parsing fails;
      - isIP: whether net.ParseIP accepts the string;
      - marshal: yaml.Marshal of the document whose `payload` key maps to the
        given rule list, None when it fails. */
  datatype Lib = Lib(
    unescape: string -> Option<string>,
    hostname: string -> Option<string>,
    isIP: string -> bool,
    marshal: seq<string> -> Option<seq<byte>>)
}
