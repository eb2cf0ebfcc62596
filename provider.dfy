/** The refresh step of gfwlistProvider (mate/gfwlist.go, update): download,
    parse, render and marshal, and publish the document only when all of them
    succeed. */
module Provider {
  import opened Types
  import opened Dedup
  import opened Render
  import opened Buckets

  /** What download returned: an error (a transport failure or a status other
      than 200), or the body, already base64-decoded and split into lines. */
  datatype Fetch = DownloadFailed | Fetched(scan: Scan)

  /** Why a refresh published nothing. Panicked is the runtime panic of the
      two-label slice, which in the running program ends the process. */
  datatype UpdateError = DownloadError | ScanError | MarshalError | Panicked

  /** The specification of one refresh: the document it publishes, or the
      first stage that failed. */
  function Refresh(lib: Lib, fetch: Fetch): Result<seq<byte>, UpdateError> {
    match fetch
    case DownloadFailed => Err(DownloadError)
    case Fetched(scan) =>
      match Collect(LineParser(lib), scan.lines)
      case Panic => Err(Panicked)
      case Done(lists) =>
        if scan.failed then Err(ScanError)
        else
          match lib.marshal(RenderRules(Unique(lists.domains), Unique(lists.ips), lists.keywords))
          case None => Err(MarshalError)
          case Some(doc) => Ok(doc)
  }

  class GfwlistProvider {
    /** The published document that Handle writes to every reader. */
    var rules: seq<byte>

    constructor ()
      ensures rules == []
    {
      rules := [];
    }

    /** update: each stage returns early on error, and `rules` is assigned
        only after every stage has succeeded; otherwise it keeps the document
        of the last successful refresh. */
    method Update(lib: Lib, fetch: Fetch) returns (err: Option<UpdateError>)
      modifies this
      ensures Refresh(lib, fetch).Ok? ==> err == None && rules == Refresh(lib, fetch).value
      ensures Refresh(lib, fetch).Err? ==> err == Some(Refresh(lib, fetch).error) && rules == old(rules)
    {
      if fetch.DownloadFailed? {
        return Some(DownloadError);
      }
      var parsed := ParseToList(lib, fetch.scan);
      if parsed.Panic? {
        return Some(Panicked);
      }
      var lists := parsed.value;
      if lists.failed {
        return Some(ScanError);
      }
      var ruleList := RenderClashRules(lists.domains, lists.ips, lists.keywords);
      var b := lib.marshal(ruleList);
      if b.None? {
        return Some(MarshalError);
      }
      rules := b.value;
      err := None;
    }
  }

  /** A published document is the marshalled rendering of one complete,
      error-free scan: it holds no keyword rule, and its IP and domain rules
      carry distinct, non-empty values. */
  lemma PublishedRules(lib: Lib, fetch: Fetch)
    requires Refresh(lib, fetch).Ok?
    ensures fetch.Fetched? && !fetch.scan.failed && Collect(LineParser(lib), fetch.scan.lines).Done?
    ensures var lists := Collect(LineParser(lib), fetch.scan.lines).value;
      var rules := RenderRules(Unique(lists.domains), Unique(lists.ips), lists.keywords);
      lib.marshal(rules) == Some(Refresh(lib, fetch).value) &&
      Select(rules, DomainKeyword) == [] &&
      NoDuplicates(Select(rules, IP)) && "" !in Select(rules, IP) &&
      NoDuplicates(Select(rules, Domain)) && "" !in Select(rules, Domain)
  {
    var lists := Collect(LineParser(lib), fetch.scan.lines).value;
    KeywordBucketEmpty(lib, fetch.scan.lines);
    RenderRoundTrip(Unique(lists.domains), Unique(lists.ips), lists.keywords);
    UniqueIsDistinct(lists.domains);
    UniqueIsDistinct(lists.ips);
  }
}
