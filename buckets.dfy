/** The line loop of parseToList (mate/gfwlist.go): every decoded line of the
    list is classified and its value appended to the bucket its tag names. */
module Buckets {
  import opened Types
  import opened GoStrings
  import opened Classify
  import opened Dedup

  /** What the line scanner produced: the lines it read and whether it stopped
      on an error (scanner.Err() != nil: bad base64, an over-long line). */
  datatype Scan = Scan(lines: seq<string>, failed: bool)

  /** The three lists the loop appends to. */
  datatype Lists = Lists(domains: seq<string>, ips: seq<string>, keywords: seq<string>)

  /** The four results of parseToList: the deduplicated domains and IPs, the
      keywords as collected, and whether the scanner reported an error. */
  datatype Parsed = Parsed(domains: seq<string>, ips: seq<string>, keywords: seq<string>, failed: bool)

  /** Empty lines, and comment, regex-section, path and allow-list lines (first
      character '!', '[', '/' or '@'), are skipped before parseLine runs. */
  predicate Skipped(line: string): (b: bool)
    ensures b <==> (line == "" || HasPrefix(line, "!") || HasPrefix(line, "[") ||
                    HasPrefix(line, "/") || HasPrefix(line, "@"))
  {
    assert line != [] ==> line[..1] == [line[0]];
    line == [] || line[0] in {'!', '[', '/', '@'}
  }

  /** The list a tag routes to; Unknown routes nowhere. */
  function Bucket(lists: Lists, tag: Tag): seq<string> {
    match tag
    case IP => lists.ips
    case Domain => lists.domains
    case DomainKeyword => lists.keywords
    case Unknown => []
  }

  /** The switch on the tag: append the value to the bucket the tag names. */
  function Route(lists: Lists, c: Classification): (r: Lists)
    ensures forall tag :: tag != Unknown ==>
      Bucket(r, tag) == Bucket(lists, tag) + (if c.tag == tag then [c.value] else [])
  {
    match c.tag
    case IP => lists.(ips := lists.ips + [c.value])
    case Domain => lists.(domains := lists.domains + [c.value])
    case DomainKeyword => lists.(keywords := lists.keywords + [c.value])
    case Unknown => lists
  }

  /** A per-line classifier; the loop runs parseLine. */
  type Classifier = string -> Outcome<Classification>

  /** parseLine with the library calls fixed. */
  function LineParser(lib: Lib): Classifier {
    line => ParseLine(lib, line)
  }

  /** One iteration of the loop: skip, panic in the classifier, or route. */
  function Step(parse: Classifier, acc: Outcome<Lists>, line: string): Outcome<Lists> {
    match acc
    case Panic => Panic
    case Done(lists) =>
      if Skipped(line) then acc
      else
        match parse(line)
        case Panic => Panic
        case Done(c) => Done(Route(lists, c))
  }

  /** The specification of the loop: the buckets after scanning all lines. */
  function Collect(parse: Classifier, lines: seq<string>): Outcome<Lists> {
    if lines == [] then Done(Lists([], [], []))
    else Step(parse, Collect(parse, lines[..|lines| - 1]), lines[|lines| - 1])
  }

  /** Scanning one more line is one more step. */
  lemma CollectSnoc(parse: Classifier, init: seq<string>, line: string)
    ensures Collect(parse, init + [line]) == Step(parse, Collect(parse, init), line)
  {
    assert (init + [line])[..|init|] == init;
  }

  /** A panic ends the scan: once a prefix panics, so does every extension. */
  lemma {:induction false} PanicIsFinal(parse: Classifier, lines: seq<string>, i: nat)
    requires i <= |lines| && Collect(parse, lines[..i]) == Panic
    ensures Collect(parse, lines) == Panic
  {
    if i < |lines| {
      var init := lines[..|lines| - 1];
      assert init[..i] == lines[..i];
      PanicIsFinal(parse, init, i);
    } else {
      assert lines[..i] == lines;
    }
  }

  /** parseToList, from the decoded lines on: one pass appending to three
      lists, then the domain and IP lists deduplicated and the keyword list
      returned as collected, together with the scanner's error. */
  method ParseToList(lib: Lib, scan: Scan) returns (r: Outcome<Parsed>)
    ensures Collect(LineParser(lib), scan.lines).Panic? ==> r == Panic
    ensures Collect(LineParser(lib), scan.lines).Done? ==>
      var lists := Collect(LineParser(lib), scan.lines).value;
      r == Done(Parsed(Unique(lists.domains), Unique(lists.ips), lists.keywords, scan.failed))
  {
    var lines := scan.lines;
    var domainList, ipList, domainKeywordList := [], [], [];
    for i := 0 to |lines|
      invariant Collect(LineParser(lib), lines[..i]) == Done(Lists(domainList, ipList, domainKeywordList))
    {
      var line := lines[i];
      assert lines[..i + 1][..i] == lines[..i];
      if line == "" {
        continue;
      }
      if line[0] in {'!', '[', '/', '@'} {
        continue;
      }
      var parsed := ParseLine(lib, line);
      if parsed.Panic? {
        PanicIsFinal(LineParser(lib), lines, i + 1);
        return Panic;
      }
      var typ, v := parsed.value.tag, parsed.value.value;
      match typ {
        case IP => ipList := ipList + [v];
        case Domain => domainList := domainList + [v];
        case DomainKeyword => domainKeywordList := domainKeywordList + [v];
        case Unknown =>
      }
    }
    assert lines[..|lines|] == lines;
    var domains := UniqueList(domainList);
    var ips := UniqueList(ipList);
    r := Done(Parsed(domains, ips, domainKeywordList, scan.failed));
  }

  /** A skipped line contributes nothing, wherever it stands. */
  lemma {:induction false} SkippedLineAddsNothing(parse: Classifier, before: seq<string>, line: string, after: seq<string>)
    requires Skipped(line)
    ensures Collect(parse, before + [line] + after) == Collect(parse, before + after)
  {
    if after == [] {
      assert before + [line] + after == before + [line];
      assert before + after == before;
      CollectSnoc(parse, before, line);
    } else {
      var init := after[..|after| - 1];
      var last := after[|after| - 1];
      SkippedLineAddsNothing(parse, before, line, init);
      assert before + [line] + after == (before + [line] + init) + [last];
      assert before + after == (before + init) + [last];
      CollectSnoc(parse, before + [line] + init, last);
      CollectSnoc(parse, before + init, last);
    }
  }

  /** The scan panics exactly when the classifier panics on some line it does not
      skip. */
  lemma {:induction false} CollectPanics(parse: Classifier, lines: seq<string>)
    ensures Collect(parse, lines).Panic? <==>
      exists i :: 0 <= i < |lines| && !Skipped(lines[i]) && parse(lines[i]).Panic?
  {
    if lines != [] {
      var init := lines[..|lines| - 1];
      CollectPanics(parse, init);
      assert forall i :: 0 <= i < |init| ==> init[i] == lines[i];
    }
  }

  /** Bucket contents: a value is in the bucket of a tag exactly when some
      non-skipped line is classified with that tag and value. */
  lemma {:induction false} CollectMembers(parse: Classifier, lines: seq<string>, tag: Tag, v: string)
    requires tag != Unknown && Collect(parse, lines).Done?
    ensures v in Bucket(Collect(parse, lines).value, tag) <==>
      exists i :: 0 <= i < |lines| && !Skipped(lines[i]) &&
        parse(lines[i]) == Done(Classification(tag, v))
  {
    if lines != [] {
      var init := lines[..|lines| - 1];
      var last := lines[|lines| - 1];
      assert Collect(parse, init).Done?;
      CollectMembers(parse, init, tag, v);
      var before := Bucket(Collect(parse, init).value, tag);
      var after := Bucket(Collect(parse, lines).value, tag);
      var added := !Skipped(last) && parse(last) == Done(Classification(tag, v));
      assert v in after <==> v in before || added by {
        if !Skipped(last) {
          var c := parse(last).value;
          assert after == before + (if c.tag == tag then [c.value] else []);
        }
      }
      assert forall i :: 0 <= i < |init| ==> init[i] == lines[i];
      if exists i :: 0 <= i < |lines| && !Skipped(lines[i]) &&
          parse(lines[i]) == Done(Classification(tag, v)) {
        var i :| 0 <= i < |lines| && !Skipped(lines[i]) &&
          parse(lines[i]) == Done(Classification(tag, v));
        if i < |init| {
          assert init[i] == lines[i];
        }
      }
    }
  }

  /** Each line adds at most one value to one bucket. */
  lemma {:induction false} CollectSize(parse: Classifier, lines: seq<string>)
    requires Collect(parse, lines).Done?
    ensures var lists := Collect(parse, lines).value;
      |lists.domains| + |lists.ips| + |lists.keywords| <= |lines|
  {
    if lines != [] {
      CollectSize(parse, lines[..|lines| - 1]);
    }
  }

  /** The indices of the lines a bucket takes its values from: the lines,
      in order, that are not skipped and are classified with the tag. */
  function Origins(parse: Classifier, lines: seq<string>, tag: Tag): (f: seq<nat>)
    ensures forall k :: 0 <= k < |f| ==>
      f[k] < |lines| && !Skipped(lines[f[k]]) && parse(lines[f[k]]).Done? && parse(lines[f[k]]).value.tag == tag
    ensures forall j, k :: 0 <= j < k < |f| ==> f[j] < f[k]
    ensures forall i :: 0 <= i < |lines| && !Skipped(lines[i]) && parse(lines[i]).Done? && parse(lines[i]).value.tag == tag ==>
      i in f
  {
    if lines == [] then []
    else
      var init := lines[..|lines| - 1];
      var last := |lines| - 1;
      var f := Origins(parse, init, tag);
      assert forall i :: 0 <= i < |init| ==> init[i] == lines[i];
      if !Skipped(lines[last]) && parse(lines[last]).Done? && parse(lines[last]).value.tag == tag then
        f + [last]
      else f
  }

  /** Whether a line adds a value to the bucket of a tag. */
  predicate Feeds(parse: Classifier, line: string, tag: Tag) {
    !Skipped(line) && parse(line).Done? && parse(line).value.tag == tag
  }

  /** One step adds the line's value to the bucket of its tag only. */
  lemma BucketStep(parse: Classifier, lists: Lists, line: string, tag: Tag)
    requires tag != Unknown && Step(parse, Done(lists), line).Done?
    ensures Bucket(Step(parse, Done(lists), line).value, tag) ==
      Bucket(lists, tag) + (if Feeds(parse, line, tag) then [parse(line).value.value] else [])
  {
  }

  lemma OriginsSnoc(parse: Classifier, init: seq<string>, line: string, tag: Tag)
    ensures Origins(parse, init + [line], tag) ==
      Origins(parse, init, tag) + (if Feeds(parse, line, tag) then [|init|] else [])
  {
    assert (init + [line])[..|init|] == init;
  }

  /** Bucket contents in full: the k-th value of a bucket is the value of the
      k-th line classified with its tag, so each bucket keeps line order and
      every duplicate. */
  lemma {:induction false} BucketOrigins(parse: Classifier, lines: seq<string>, tag: Tag)
    requires tag != Unknown && Collect(parse, lines).Done?
    ensures var bucket := Bucket(Collect(parse, lines).value, tag);
      var f := Origins(parse, lines, tag);
      |f| == |bucket| &&
      forall k :: 0 <= k < |f| ==> parse(lines[f[k]]) == Done(Classification(tag, bucket[k]))
  {
    if lines != [] {
      var init := lines[..|lines| - 1];
      var line := lines[|lines| - 1];
      assert lines == init + [line];
      CollectSnoc(parse, init, line);
      assert Collect(parse, init).Done?;
      BucketOrigins(parse, init, tag);
      BucketStep(parse, Collect(parse, init).value, line, tag);
      OriginsSnoc(parse, init, line, tag);
      var f := Origins(parse, init, tag);
      var before := Bucket(Collect(parse, init).value, tag);
      var origins := Origins(parse, lines, tag);
      var bucket := Bucket(Collect(parse, lines).value, tag);
      forall k | 0 <= k < |origins|
        ensures parse(lines[origins[k]]) == Done(Classification(tag, bucket[k]))
      {
        if k < |f| {
          assert origins[k] == f[k] && bucket[k] == before[k];
          assert lines[f[k]] == init[f[k]];
        } else {
          assert origins[k] == |init| && bucket[k] == parse(line).value.value;
        }
      }
    }
  }

  /** No line is ever routed to the keyword bucket, so it stays empty. */
  lemma {:induction false} KeywordBucketEmpty(lib: Lib, lines: seq<string>)
    requires Collect(LineParser(lib), lines).Done?
    ensures Collect(LineParser(lib), lines).value.keywords == []
  {
    if lines != [] {
      KeywordBucketEmpty(lib, lines[..|lines| - 1]);
      NoKeywordClassification(lib, lines[|lines| - 1]);
    }
  }
}
