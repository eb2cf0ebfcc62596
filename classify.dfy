/** The line classifier: tryGetDomain, tryGetDomainOrIP and parseLine
    (mate/gfwlist.go). Pure functions over one line of the filter list. */
module Classify {
  import opened Types
  import opened GoStrings

  /** The text tryGetDomain hands to url.Parse: the line with "http://" put in
      front unless it is already there, then percent-decoded; a decoding error
      leaves the empty string, because the error is discarded. */
  function UrlText(lib: Lib, v: string): (r: string)
    ensures HasPrefix(v, "http://") && lib.unescape(v).Some? ==> r == lib.unescape(v).value
    ensures !HasPrefix(v, "http://") && lib.unescape("http://" + v).Some? ==>
      r == lib.unescape("http://" + v).value
    ensures HasPrefix(v, "http://") && lib.unescape(v).None? ==> r == ""
    ensures !HasPrefix(v, "http://") && lib.unescape("http://" + v).None? ==> r == ""
  {
    var withScheme := if HasPrefix(v, "http://") then v else "http://" + v;
    match lib.unescape(withScheme)
    case Some(u) => u
    case None => ""
  }

  /** The cutsets of the four TrimLeft calls of parseLine: "|", "http://",
      "https://" and ".", each read as a set of characters. */
  const Bar: set<char> := {'|'}
  const Http: set<char> := {'h', 't', 'p', ':', '/'}
  const Https: set<char> := {'h', 't', 'p', 's', ':', '/'}
  const Dot: set<char> := {'.'}

  /** True when neither end of v is a '*'. */
  predicate NoStarEnds(v: string) {
    v == [] || (v[0] != '*' && v[|v| - 1] != '*')
  }

  lemma NoStarSuffix(v: string)
    requires NoStarEnds(v)
    ensures !HasSuffix(v, "*")
  {
    if v != [] {
      assert v[|v| - 1..] == [v[|v| - 1]];
    }
  }

  /** The deferred rewrite of tryGetDomain: every value it returns has its '*'
      characters trimmed from both ends. */
  function Returned(tag: Tag, v: string): (c: Classification)
    ensures c.tag == tag && NoStarEnds(c.value)
    ensures TrimmedFrom(c.value, v, {'*'})
  {
    Classification(tag, Trim(v, {'*'}))
  }

  /** `strings.Join(pairs[len(pairs)-2:], ".")` for the dot-separated labels of
      a hostname: the slice panics when there is only one label. Otherwise the
      result is the suffix of the host that holds exactly one dot and is either
      the whole host or starts right after a dot, that is the last two labels. */
  function LastTwoLabels(host: string): (r: Outcome<string>)
    ensures r.Panic? <==> '.' !in host
    ensures r.Done? ==> HasSuffix(host, r.value) && Count(r.value, '.') == 1
    ensures r.Done? ==> |r.value| == |host| || host[|host| - |r.value| - 1] == '.'
    ensures Count(host, '.') == 1 ==> r == Done(host)
  {
    var pairs := Split(host, '.');
    CountZero(host, '.');
    if |pairs| < 2 then Panic
    else
      JoinSuffix(host, '.', |pairs| - 2);
      CountJoin(pairs[|pairs| - 2..], '.');
      Done(Join(pairs[|pairs| - 2..], '.'))
  }

  /** tryGetDomain: the hostname of the line read as a URL, as an IP when it is
      one, else as a domain (the whole host when `full`, its last two labels
      otherwise); (unknown, "") when the URL does not parse. */
  function TryGetDomain(lib: Lib, v: string, full: bool): (r: Outcome<Classification>)
    ensures r.Panic? ==> !full
    ensures r.Done? ==> r.value.tag != DomainKeyword && NoStarEnds(r.value.value)
    ensures r.Done? && r.value.tag == Unknown ==> r.value.value == ""
    ensures r.Done? && r.value.tag == Domain && !full ==> Count(r.value.value, '.') == 1
    ensures r.Done? && r.value.tag == Unknown <==> lib.hostname(UrlText(lib, v)).None?
  {
    match lib.hostname(UrlText(lib, v))
    case None => Done(Returned(Unknown, ""))
    case Some(host) =>
      if lib.isIP(host) then Done(Returned(IP, host))
      else if full then Done(Returned(Domain, host))
      else TwoLabelDomain(host)
  }

  /** The two-label branch of tryGetDomain for a host that is not an IP. */
  function TwoLabelDomain(host: string): (r: Outcome<Classification>)
    ensures r.Panic? <==> '.' !in host
    ensures r.Done? ==> r.value.tag == Domain && NoStarEnds(r.value.value) && Count(r.value.value, '.') == 1
  {
    DomainOf(LastTwoLabels(host))
  }

  /** The domain result of the two-label slice: its panic passed on, its
      labels returned as a domain. */
  function DomainOf(labels: Outcome<string>): (r: Outcome<Classification>)
    ensures r.Panic? <==> labels.Panic?
    ensures r.Done? ==> r.value.tag == Domain && NoStarEnds(r.value.value)
    ensures r.Done? ==> Count(r.value.value, '.') == Count(labels.value, '.')
    ensures r.Done? ==> TrimmedFrom(r.value.value, labels.value, {'*'})
  {
    match labels
    case Panic => Panic
    case Done(l) =>
      CountTrim(l, {'*'}, '.');
      Done(Returned(Domain, l))
  }

  /** tryGetDomainOrIP: tryGetDomain in two-label mode. */
  function TryGetDomainOrIP(lib: Lib, v: string): Outcome<Classification> {
    TryGetDomain(lib, v, false)
  }

  /** The first dot-separated label of v. */
  function FirstLabel(v: string): string {
    Split(v, '.')[0]
  }

  /** A line that starts with a non-empty prefix starts with its first character. */
  lemma PrefixHead(line: string, prefix: string)
    requires prefix != [] && HasPrefix(line, prefix)
    ensures line != [] && line[0] == prefix[0]
  {
    assert line[0] == line[..|prefix|][0];
  }

  /** A "||" line also starts with "|". */
  lemma PipesStartWithPipe(line: string)
    ensures HasPrefix(line, "||") ==> HasPrefix(line, "|")
  {
    if HasPrefix(line, "||") {
      assert line[..1] == line[..2][..1];
    }
  }

  /** parseLine: classifies one line by its leading characters, in the order
      the source tests them. */
  function ParseLine(lib: Lib, line: string): (r: Outcome<Classification>)
    ensures r.Panic? ==> HasPrefix(line, "http://") || HasPrefix(line, ".")
    ensures r.Done? && r.value.tag == Unknown ==> r.value.value == ""
  {
    if HasPrefix(line, "|") then
      TryGetDomain(lib, TrimLeft(TrimLeft(line, Bar), Http), true)
    else if HasPrefix(line, "||") || HasPrefix(line, "http://") then
      PipesStartWithPipe(line);
      TryGetDomainOrIP(lib, TrimLeft(TrimLeft(TrimLeft(line, Bar), Http), Https))
    else if HasPrefix(line, ".") then
      match TryGetDomainOrIP(lib, TrimLeft(line, Dot))
      case Panic => Panic
      case Done(c) =>
        if HasSuffix(c.value, "*") then Done(Classification(DomainKeyword, FirstLabel(c.value)))
        else Done(c)
    else if '.' in line then
      TryGetDomain(lib, line, true)
    else if lib.isIP(line) then
      Done(Classification(IP, line))
    else
      Done(Classification(Unknown, ""))
  }

  /** The wildcard test of the "." branch can never succeed, because
      tryGetDomain's value never ends in '*': a "." line yields exactly what
      tryGetDomainOrIP yields, and no line is ever classified as a keyword. */
  lemma DotLineIsTwoLabelLookup(lib: Lib, line: string)
    requires HasPrefix(line, ".")
    ensures ParseLine(lib, line) == TryGetDomainOrIP(lib, TrimLeft(line, Dot))
  {
    PrefixHead(line, ".");
    PipesStartWithPipe(line);
    if HasPrefix(line, "|") { PrefixHead(line, "|"); }
    if HasPrefix(line, "http://") { PrefixHead(line, "http://"); }
    var lookup := TryGetDomainOrIP(lib, TrimLeft(line, Dot));
    if lookup.Done? {
      NoStarSuffix(lookup.value.value);
    }
  }

  lemma NoKeywordClassification(lib: Lib, line: string)
    ensures ParseLine(lib, line).Done? ==> ParseLine(lib, line).value.tag != DomainKeyword
  {
    if HasPrefix(line, ".") && !HasPrefix(line, "|") && !HasPrefix(line, "||") && !HasPrefix(line, "http://") {
      DotLineIsTwoLabelLookup(lib, line);
    }
  }

  /** The "|" test comes first and also catches "||" lines: they are looked up
      in full-host mode and therefore never panic. */
  lemma DoublePipeTakesFullHost(lib: Lib, line: string)
    requires HasPrefix(line, "||")
    ensures ParseLine(lib, line) == TryGetDomain(lib, TrimLeft(TrimLeft(line, Bar), Http), true)
    ensures ParseLine(lib, line).Done?
  {
    PipesStartWithPipe(line);
  }

  /** A line without a dot and without a "|" or "http://" prefix is an IP when
      net.ParseIP accepts it, and (unknown, "") otherwise. */
  lemma DotlessLine(lib: Lib, line: string)
    requires !HasPrefix(line, "|") && !HasPrefix(line, "http://") && '.' !in line
    ensures ParseLine(lib, line) ==
      if lib.isIP(line) then Done(Classification(IP, line)) else Done(Classification(Unknown, ""))
  {
    PipesStartWithPipe(line);
    if HasPrefix(line, ".") { PrefixHead(line, "."); }
  }

  lemma NotPrefix(line: string, prefix: string)
    requires line != [] && prefix != [] && line[0] != prefix[0]
    ensures !HasPrefix(line, prefix)
  {
    if HasPrefix(line, prefix) {
      PrefixHead(line, prefix);
    }
  }

  /** A URL that does not parse is classified (unknown, ""), in either mode. */
  lemma LookupOfUnparsable(lib: Lib, v: string, full: bool)
    requires lib.hostname(UrlText(lib, v)).None?
    ensures TryGetDomain(lib, v, full) == Done(Classification(Unknown, ""))
  {
  }

  /** A lookup whose host is an IP yields that IP with '*' trimmed from its
      ends, in either mode. */
  lemma LookupOfIP(lib: Lib, v: string, full: bool, host: string)
    requires lib.hostname(UrlText(lib, v)) == Some(host) && lib.isIP(host)
    ensures TryGetDomain(lib, v, full) == Done(Classification(IP, Trim(host, {'*'})))
  {
  }

  /** ... and the host itself when it has no '*' at either end. */
  lemma LookupOfPlainIP(lib: Lib, v: string, full: bool, host: string)
    requires lib.hostname(UrlText(lib, v)) == Some(host) && lib.isIP(host) && NoStarEnds(host)
    ensures TryGetDomain(lib, v, full) == Done(Classification(IP, host))
  {
    LookupOfIP(lib, v, full, host);
  }

  /** A full-host lookup of a non-IP host yields the whole host, '*' trimmed
      from its ends, as a domain. */
  lemma LookupOfFullHost(lib: Lib, v: string, host: string)
    requires lib.hostname(UrlText(lib, v)) == Some(host) && !lib.isIP(host)
    ensures TryGetDomain(lib, v, true) == Done(Classification(Domain, Trim(host, {'*'})))
  {
  }

  /** A two-label lookup of a non-IP host without a dot panics. */
  lemma LookupOfSingleLabel(lib: Lib, v: string, host: string)
    requires lib.hostname(UrlText(lib, v)) == Some(host) && !lib.isIP(host) && '.' !in host
    ensures TryGetDomain(lib, v, false) == Panic
  {
  }

  /** A host ending in '*' loses it: "google.*" is taken as "google.". */
  lemma TrailingStarTrimmed(name: string)
    requires name != [] && NoStarEnds(name)
    ensures Trim(name + "*", {'*'}) == name
  {
    var s := name + "*";
    assert s[0..][..|name|] == name;
    assert forall k :: |name| <= k < |s| ==> s[k] == '*';
    TrimIsUnique(s, {'*'}, name);
  }

  /** A line with a dot and none of the "|", "http://" or "." prefixes is
      looked up as a URL in full-host mode. */
  lemma DottedLine(lib: Lib, line: string)
    requires !HasPrefix(line, "|") && !HasPrefix(line, "http://") && !HasPrefix(line, ".") && '.' in line
    ensures ParseLine(lib, line) == TryGetDomain(lib, line, true)
  {
    PipesStartWithPipe(line);
  }

  /** So a dotted IP such as "1.2.3.4" whose URL host is the line itself is
      classified as that IP. */
  lemma DottedIPLine(lib: Lib, line: string)
    requires !HasPrefix(line, "|") && !HasPrefix(line, "http://") && !HasPrefix(line, ".") && '.' in line
    requires lib.hostname(UrlText(lib, line)) == Some(line) && lib.isIP(line) && NoStarEnds(line)
    ensures ParseLine(lib, line) == Done(Classification(IP, line))
  {
    DottedLine(lib, line);
    LookupOfPlainIP(lib, line, true, line);
  }

  /** And a dotted host such as "sub.a.com" whose URL host is the line itself
      keeps all its labels: it is not cut to its last two. */
  lemma DottedDomainLine(lib: Lib, line: string)
    requires !HasPrefix(line, "|") && !HasPrefix(line, "http://") && !HasPrefix(line, ".") && '.' in line
    requires lib.hostname(UrlText(lib, line)) == Some(line) && !lib.isIP(line) && NoStarEnds(line)
    ensures ParseLine(lib, line) == Done(Classification(Domain, line))
  {
    DottedLine(lib, line);
    LookupOfFullHost(lib, line, line);
  }

  /** The last two labels of a three-label host. */
  lemma LastTwoOfThree(sub: string, name: string, tld: string)
    requires '.' !in sub && '.' !in name && '.' !in tld
    ensures LastTwoLabels(sub + "." + (name + "." + tld)) == Done(name + "." + tld)
  {
    var labels := name + "." + tld;
    SplitAtFirst(sub, labels, '.');
    SplitAtFirst(name, tld, '.');
    SplitWithoutSeparator(tld, '.');
    var pairs := Split(sub + "." + labels, '.');
    assert pairs == [sub, name, tld];
    assert pairs[|pairs| - 2..] == [name, tld];
    assert Join([tld], '.') == tld;
    assert Join([name, tld], '.') == name + ['.'] + Join([tld], '.');
  }

  /** Labels without a '*' at either end come back unchanged as a domain. */
  lemma DomainOfLabels(labels: string)
    requires NoStarEnds(labels)
    ensures DomainOf(Done(labels)) == Done(Classification(Domain, labels))
  {
    assert Trim(labels, {'*'}) == labels;
  }

  /** A two-label lookup of a non-IP host yields its last two labels, '*'
      trimmed from their ends. */
  lemma LookupOfDomain(lib: Lib, v: string, host: string, labels: string)
    requires lib.hostname(UrlText(lib, v)) == Some(host) && !lib.isIP(host)
    requires LastTwoLabels(host) == Done(labels)
    ensures TryGetDomain(lib, v, false) == Done(Classification(Domain, Trim(labels, {'*'})))
  {
    assert TwoLabelDomain(host) == DomainOf(Done(labels));
  }

  /** ... and exactly those labels when they have no '*' at either end. */
  lemma LookupOfPlainDomain(lib: Lib, v: string, host: string, labels: string)
    requires lib.hostname(UrlText(lib, v)) == Some(host) && !lib.isIP(host)
    requires LastTwoLabels(host) == Done(labels) && NoStarEnds(labels)
    ensures TryGetDomain(lib, v, false) == Done(Classification(Domain, labels))
  {
    DomainOfLabels(labels);
    assert TwoLabelDomain(host) == DomainOf(Done(labels));
  }

  /** A "." line is looked up, in two-label mode, as the text after its dot. */
  lemma DotLineLookup(lib: Lib, host: string)
    requires host == [] || host[0] != '.'
    ensures ParseLine(lib, "." + host) == TryGetDomainOrIP(lib, host)
  {
    var line := "." + host;
    assert HasPrefix(line, ".") by {
      assert line[..1] == ".";
    }
    DotLineIsTwoLabelLookup(lib, line);
    TrimLeftPrefix(".", host, Dot);
  }

  /** A dot-prefixed line whose host has three labels is reduced to the last
      two (".ads.example.com" gives "example.com"). */
  lemma DotPrefixedLine(lib: Lib, sub: string, name: string, tld: string)
    requires sub != [] && '.' !in sub && '.' !in name && '.' !in tld
    requires name != [] && name[0] != '*' && tld != [] && tld[|tld| - 1] != '*'
    requires var host := sub + "." + (name + "." + tld);
      lib.hostname(UrlText(lib, host)) == Some(host) && !lib.isIP(host)
    ensures ParseLine(lib, "." + (sub + "." + (name + "." + tld))) ==
      Done(Classification(Domain, name + "." + tld))
  {
    var labels := name + "." + tld;
    var host := sub + "." + labels;
    assert host[0] == sub[0];
    DotLineLookup(lib, host);
    LastTwoOfThree(sub, name, tld);
    assert NoStarEnds(labels) by {
      assert labels[0] == name[0];
      assert labels[|labels| - 1] == tld[|tld| - 1];
    }
    LookupOfPlainDomain(lib, host, host, labels);
  }

  /** A dot-prefixed line whose host has a single label panics on the
      two-label slice. */
  lemma DotPrefixedSingleLabel(lib: Lib, host: string)
    requires '.' !in host
    requires lib.hostname(UrlText(lib, host)) == Some(host) && !lib.isIP(host)
    ensures ParseLine(lib, "." + host) == Panic
  {
    if host != [] {
      assert host[0] != '.';
    }
    DotLineLookup(lib, host);
  }

  /** The "http://" cutset trim after the "|" trim also eats a leading h, t, p,
      ':' or '/' of the host: "||tracker.example.org^" is looked up, in
      full-host mode, as "racker.example.org^". */
  lemma DoublePipeEatsHostStart(lib: Lib, line: string)
    requires HasPrefix(line, "||") && |line| > 2 && line[2] in Http
    requires |line| == 3 || line[3] !in Http
    ensures ParseLine(lib, line) == TryGetDomain(lib, line[3..], true)
  {
    var afterBars := TrimLeft(line, Bar);
    assert afterBars == line[2..] by {
      assert line[..2] == "||";
      assert line == line[..2] + line[2..];
      TrimLeftPrefix(line[..2], line[2..], Bar);
    }
    assert TrimLeft(afterBars, Http) == line[3..] by {
      assert afterBars == [line[2]] + line[3..];
      TrimLeftPrefix([line[2]], line[3..], Http);
    }
    DoublePipeTakesFullHost(lib, line);
  }

  /** Likewise "http://trash.com" is looked up, in two-label mode, as
      "rash.com". */
  lemma HttpLineEatsHostStart(lib: Lib, line: string)
    requires HasPrefix(line, "http://") && |line| > 7 && line[7] in Http
    requires |line| == 8 || line[8] !in Https
    ensures ParseLine(lib, line) == TryGetDomainOrIP(lib, line[8..])
  {
    assert !HasPrefix(line, "|") by {
      PrefixHead(line, "http://");
      NotPrefix(line, "|");
    }
    assert TrimLeft(line, Bar) == line;
    assert TrimLeft(line, Http) == line[8..] by {
      assert line[..8] == line[..7] + [line[7]];
      assert line == line[..8] + line[8..];
      TrimLeftPrefix(line[..8], line[8..], Http);
    }
    assert TrimLeft(line[8..], Https) == line[8..];
  }
}
