/** renderClashRules (mate/gfwlist.go): the three buckets as Clash rule lines,
    keywords first, then IPs, then domains. */
module Render {
  import opened Types
  import opened GoStrings

  const KeywordPrefix := "DOMAIN-KEYWORD,"
  const IPPrefix := "SRC-IP-CIDR,"
  const IPSuffix := "/32"
  const DomainPrefix := "DOMAIN-SUFFIX,"

  /** The three rule formats: a fixed prefix, the value and, for an IP, the
      "/32" suffix of a single-address CIDR block. */
  function KeywordRule(keyword: string): (r: string)
    ensures HasPrefix(r, KeywordPrefix) && r[|KeywordPrefix|..] == keyword
  {
    KeywordPrefix + keyword
  }

  function IPRule(ip: string): (r: string)
    ensures HasPrefix(r, IPPrefix) && HasSuffix(r, IPSuffix)
    ensures |r| == |IPPrefix| + |ip| + |IPSuffix| && r[|IPPrefix|..|r| - |IPSuffix|] == ip
  {
    IPPrefix + ip + IPSuffix
  }

  function DomainRule(domain: string): (r: string)
    ensures HasPrefix(r, DomainPrefix) && r[|DomainPrefix|..] == domain
  {
    DomainPrefix + domain
  }

  /** The rule line of one bucket entry. */
  function Rule(tag: Tag, value: string): string
    requires tag != Unknown
  {
    match tag
    case DomainKeyword => KeywordRule(value)
    case IP => IPRule(value)
    case Domain => DomainRule(value)
  }

  /** The rule lines of one bucket, in bucket order. */
  function Block(tag: Tag, values: seq<string>): seq<string>
    requires tag != Unknown
  {
    seq(|values|, i requires 0 <= i < |values| => Rule(tag, values[i]))
  }

  /** The specification: one rule per entry, keyword block first, then the IP
      block, then the domain block. */
  function RenderRules(domains: seq<string>, ips: seq<string>, keywords: seq<string>): seq<string> {
    Block(DomainKeyword, keywords) + Block(IP, ips) + Block(Domain, domains)
  }

  /** Extending a block's input by one value extends the block by its rule. */
  lemma BlockSnoc(tag: Tag, values: seq<string>, i: nat)
    requires tag != Unknown && i < |values|
    ensures Block(tag, values[..i + 1]) == Block(tag, values[..i]) + [Rule(tag, values[i])]
  {
  }

  /** A block has one rule per entry, and its j-th rule renders its j-th entry. */
  lemma BlockAt(tag: Tag, values: seq<string>)
    requires tag != Unknown
    ensures |Block(tag, values)| == |values|
    ensures forall j :: 0 <= j < |values| ==> Block(tag, values)[j] == Rule(tag, values[j])
  {
  }

  /** renderClashRules: three loops appending to one list. */
  method RenderClashRules(domainList: seq<string>, ipList: seq<string>, domainKeywordList: seq<string>)
    returns (rules: seq<string>)
    ensures rules == RenderRules(domainList, ipList, domainKeywordList)
  {
    rules := [];
    for i := 0 to |domainKeywordList|
      invariant rules == Block(DomainKeyword, domainKeywordList[..i])
    {
      BlockSnoc(DomainKeyword, domainKeywordList, i);
      rules := rules + [KeywordRule(domainKeywordList[i])];
    }
    assert domainKeywordList[..|domainKeywordList|] == domainKeywordList;
    ghost var keywordRules := rules;
    for i := 0 to |ipList|
      invariant rules == keywordRules + Block(IP, ipList[..i])
    {
      BlockSnoc(IP, ipList, i);
      rules := rules + [IPRule(ipList[i])];
    }
    assert ipList[..|ipList|] == ipList;
    ghost var ipRules := rules;
    for i := 0 to |domainList|
      invariant rules == ipRules + Block(Domain, domainList[..i])
    {
      BlockSnoc(Domain, domainList, i);
      rules := rules + [DomainRule(domainList[i])];
    }
    assert domainList[..|domainList|] == domainList;
  }

  /** The kind of a rule line, read back from its prefix (and, for an IP rule,
      its "/32" suffix); Unknown for a line no block produces. */
  function RuleTag(rule: string): Tag {
    if HasPrefix(rule, KeywordPrefix) then DomainKeyword
    else if HasPrefix(rule, IPPrefix) && HasSuffix(rule, IPSuffix) && |IPPrefix| + |IPSuffix| <= |rule| then IP
    else if HasPrefix(rule, DomainPrefix) then Domain
    else Unknown
  }

  /** The value a rule line was rendered from. */
  function RuleValue(rule: string): string {
    match RuleTag(rule)
    case DomainKeyword => rule[|KeywordPrefix|..]
    case IP => rule[|IPPrefix|..|rule| - |IPSuffix|]
    case Domain => rule[|DomainPrefix|..]
    case Unknown => ""
  }

  /** The values of the rule lines of one kind, in order. */
  function Select(rules: seq<string>, tag: Tag): seq<string> {
    if rules == [] then []
    else
      var rest := Select(rules[1..], tag);
      if RuleTag(rules[0]) == tag then [RuleValue(rules[0])] + rest else rest
  }

  /** Position of a block in the rendered list. */
  function Rank(tag: Tag): nat {
    match tag
    case DomainKeyword => 0
    case IP => 1
    case Domain => 2
    case Unknown => 3
  }

  /** Every rule line reads back as the kind and value it was rendered from. */
  lemma RuleReadsBack(tag: Tag, value: string)
    requires tag != Unknown
    ensures RuleTag(Rule(tag, value)) == tag && RuleValue(Rule(tag, value)) == value
  {
    var rule := Rule(tag, value);
    match tag {
      case DomainKeyword =>
        assert rule[..|KeywordPrefix|] == KeywordPrefix;
      case IP =>
        assert rule[0] == 'S' && KeywordPrefix[0] == 'D';
        assert rule[..|IPPrefix|] == IPPrefix;
        assert rule[|rule| - |IPSuffix|..] == IPSuffix;
        assert rule[|IPPrefix|..|rule| - |IPSuffix|] == value;
      case Domain =>
        assert rule[7] == 'S' && KeywordPrefix[7] == 'K';
        assert rule[0] == 'D' && IPPrefix[0] == 'S';
        assert rule[..|DomainPrefix|] == DomainPrefix;
    }
  }

  lemma {:induction false} SelectAppend(a: seq<string>, b: seq<string>, tag: Tag)
    ensures Select(a + b, tag) == Select(a, tag) + Select(b, tag)
  {
    if a != [] {
      assert (a + b)[1..] == a[1..] + b;
      SelectAppend(a[1..], b, tag);
    } else {
      assert a + b == b;
    }
  }

  /** Reading back a list that starts with a rendered rule. */
  lemma SelectRule(kind: Tag, value: string, rest: seq<string>, tag: Tag)
    requires kind != Unknown
    ensures Select([Rule(kind, value)] + rest, tag) ==
      (if tag == kind then [value] else []) + Select(rest, tag)
  {
    var rules := [Rule(kind, value)] + rest;
    assert rules[0] == Rule(kind, value) && rules[1..] == rest;
    RuleReadsBack(kind, value);
  }

  /** Reading one block back by kind gives the block's values for its own
      kind and nothing for the others. */
  lemma {:induction false} SelectBlock(kind: Tag, values: seq<string>, tag: Tag)
    requires kind != Unknown
    ensures Select(Block(kind, values), tag) == if tag == kind then values else []
  {
    if values != [] {
      assert Block(kind, values) == [Rule(kind, values[0])] + Block(kind, values[1..]);
      SelectRule(kind, values[0], Block(kind, values[1..]), tag);
      SelectBlock(kind, values[1..], tag);
      assert values == [values[0]] + values[1..];
    } else {
      assert Block(kind, values) == [];
    }
  }

  /** Reading the rendered rules back by kind recovers the three input lists:
      rendering loses nothing and mixes nothing. */
  lemma RenderRoundTrip(domains: seq<string>, ips: seq<string>, keywords: seq<string>)
    ensures var rules := RenderRules(domains, ips, keywords);
      Select(rules, DomainKeyword) == keywords &&
      Select(rules, IP) == ips &&
      Select(rules, Domain) == domains &&
      Select(rules, Unknown) == []
  {
    var kb, ib, db := Block(DomainKeyword, keywords), Block(IP, ips), Block(Domain, domains);
    forall tag: Tag
      ensures Select(kb + ib + db, tag) ==
        (if tag == DomainKeyword then keywords else []) +
        (if tag == IP then ips else []) +
        (if tag == Domain then domains else [])
    {
      SelectAppend(kb + ib, db, tag);
      SelectAppend(kb, ib, tag);
      SelectBlock(DomainKeyword, keywords, tag);
      SelectBlock(IP, ips, tag);
      SelectBlock(Domain, domains, tag);
    }
  }

  /** The kind of the rule at position i of the rendered list. */
  function TagAt(i: nat, ips: seq<string>, keywords: seq<string>): Tag {
    if i < |keywords| then DomainKeyword else if i < |keywords| + |ips| then IP else Domain
  }

  /** The rule at position i of the rendered list: which block it belongs to
      and which entry of that block it renders. */
  lemma RuleAt(domains: seq<string>, ips: seq<string>, keywords: seq<string>, i: nat)
    requires i < |keywords| + |ips| + |domains|
    ensures |RenderRules(domains, ips, keywords)| == |keywords| + |ips| + |domains|
    ensures RenderRules(domains, ips, keywords)[i] ==
      if i < |keywords| then Block(DomainKeyword, keywords)[i]
      else if i < |keywords| + |ips| then Block(IP, ips)[i - |keywords|]
      else Block(Domain, domains)[i - |keywords| - |ips|]
  {
    var kb, ib, db := Block(DomainKeyword, keywords), Block(IP, ips), Block(Domain, domains);
    assert |kb| == |keywords| && |ib| == |ips| && |db| == |domains|;
    if i < |kb| {
      assert (kb + ib + db)[i] == kb[i];
    } else if i < |kb| + |ib| {
      assert (kb + ib + db)[i] == ib[i - |kb|];
    } else {
      assert (kb + ib + db)[i] == db[i - |kb| - |ib|];
    }
  }

  /** Every rule of a block reads back as the block's kind. */
  lemma BlockTags(tag: Tag, values: seq<string>)
    requires tag != Unknown
    ensures forall j :: 0 <= j < |Block(tag, values)| ==> RuleTag(Block(tag, values)[j]) == tag
  {
    forall j | 0 <= j < |Block(tag, values)|
      ensures RuleTag(Block(tag, values)[j]) == tag
    {
      RuleReadsBack(tag, values[j]);
    }
  }

  lemma RuleTagAt(domains: seq<string>, ips: seq<string>, keywords: seq<string>, i: nat)
    requires i < |keywords| + |ips| + |domains|
    ensures |RenderRules(domains, ips, keywords)| == |keywords| + |ips| + |domains|
    ensures RuleTag(RenderRules(domains, ips, keywords)[i]) == TagAt(i, ips, keywords)
  {
    RuleAt(domains, ips, keywords, i);
    BlockTags(DomainKeyword, keywords);
    BlockTags(IP, ips);
    BlockTags(Domain, domains);
  }

  /** One rule per entry, and every keyword rule precedes every IP rule, which
      precedes every domain rule. */
  lemma RenderBlockOrder(domains: seq<string>, ips: seq<string>, keywords: seq<string>)
    ensures |RenderRules(domains, ips, keywords)| == |keywords| + |ips| + |domains|
    ensures var rules := RenderRules(domains, ips, keywords);
      forall i, j :: 0 <= i < j < |rules| ==> Rank(RuleTag(rules[i])) <= Rank(RuleTag(rules[j]))
  {
    var rules := RenderRules(domains, ips, keywords);
    forall i, j | 0 <= i < j < |rules|
      ensures Rank(RuleTag(rules[i])) <= Rank(RuleTag(rules[j]))
    {
      RuleTagAt(domains, ips, keywords, i);
      RuleTagAt(domains, ips, keywords, j);
    }
  }
}
