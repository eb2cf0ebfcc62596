# gfwlist rule provider — verified model

This project models the core of clash-mate's gfwlist provider, `mate/gfwlist.go`. The provider downloads the
gfwlist filter list, which uses AdBlock-Plus-style syntax. Its parser classifies each line as a
domain, an IP or a domain keyword, or drops the line. It deduplicates the domain and IP buckets and renders
the three buckets as Clash rules: `DOMAIN-KEYWORD,<k>`, then `SRC-IP-CIDR,<ip>/32`, then `DOMAIN-SUFFIX,<d>`.
It marshals the rules as a YAML document and publishes that document only when every stage has succeeded.

The model follows the code's own form:

- The classifier is pure. `tryGetDomain`, `tryGetDomainOrIP` and `parseLine` are Dafny functions over
  strings in `classify.dfy`. The Go `strings` calls they use are in `strings.dfy`.
- The loops are methods, each proved against a specification function:
  - `uniqueList` against `Dedup.Unique`;
  - `renderClashRules` against `Render.RenderRules`;
  - the scan loop of `parseToList` against `Buckets.Collect`.
- The provider is a class. Its `rules` field is updated by `Update`, which is proved against `Provider.Refresh`.

Library calls are parameters, not code. The `Lib` value in `types.dfy` stands for:

- `url.QueryUnescape`;
- `url.Parse(..).Hostname()`;
- `net.ParseIP` (that is, `isIP`);
- `yaml.Marshal`.

Every property below holds whatever these functions return.

The runtime panic of the two-label slice `pairs[len(pairs)-2:]` is an outcome of its own, `Outcome.Panic`.
It happens when a hostname holds no dot. The panic travels up through `parseLine` and the scan loop to `update`.

Three behaviours of the code are modelled as written and proved:

- The `"|"` test of `parseLine` comes first, so it also catches `"||"` lines. Those lines are looked up in
  full-host mode; the `"||"` alternative of the second branch is never reached.
- `strings.TrimLeft` trims a character set, not a literal prefix. So `"||tracker.example.org^"` is looked up
  as `"racker.example.org^"`, and `"http://trash.com"` as `"rash.com"`.
- `tryGetDomain` trims `*` from both ends of every value it returns. So the wildcard test of the `"."`
  branch never succeeds, and the keyword bucket is always empty.

Two consequences of the branch order:

- A `"||"` line keeps its full host; it is never reduced to its last two labels.
- A dotted line without a marker prefix, such as `"sub.a.com"`, also takes the full-host branch and, when its URL host is the line itself, stays `"sub.a.com"` (`Classify.DottedDomainLine`).

Two wrappers carry no contract of their own:

- `Classify.TryGetDomainOrIP` is `tryGetDomain` in two-label mode (mate/gfwlist.go:134-136). Its behaviour is stated by `Classify.LookupOfDomain`, `Classify.LookupOfSingleLabel` and `Classify.HttpLineEatsHostStart`.
- `Classify.FirstLabel` is the `strings.Split(v, ".")[0]` of the wildcard branch (mate/gfwlist.go:179). `Classify.DotLineIsTwoLabelLookup` proves that branch is never taken.

## Model

| member | source | states |
|---|---|---|
| Dedup.UniqueList | mate/gfwlist.go:32-43 | the map-and-append loop returns exactly `Unique(list)`, the first-occurrence, non-empty deduplication |
| Dedup.UniqueMembers | mate/gfwlist.go:35-41 | an element is in the result if and only if it is in the input and is not the empty string |
| Dedup.UniqueIsDistinct | mate/gfwlist.go:36-40 | the result has no duplicate element and no empty string |
| Dedup.UniqueKeepsFirstOccurrenceOrder | mate/gfwlist.go:35-41 | every kept element comes from the input, and kept elements appear in the order of their first occurrence in the input |
| Dedup.UniqueOfDistinct | mate/gfwlist.go:32-43 | a list with no duplicates and no empty string is returned unchanged |
| Dedup.UniqueIdempotent | mate/gfwlist.go:32-43 | deduplicating twice gives the same list as deduplicating once |
| Render.KeywordRule | mate/gfwlist.go:62 | a keyword rule is "DOMAIN-KEYWORD," followed by exactly the keyword |
| Render.IPRule | mate/gfwlist.go:65 | an IP rule is "SRC-IP-CIDR," then exactly the address, then "/32" |
| Render.DomainRule | mate/gfwlist.go:68 | a domain rule is "DOMAIN-SUFFIX," followed by exactly the domain |
| Render.BlockSnoc | mate/gfwlist.go:61-69 | appending one entry to a bucket appends that entry's rule to its block |
| Render.RenderClashRules | mate/gfwlist.go:58-72 | the three append loops return exactly `RenderRules`: keyword rules, then IP rules, then domain rules, each in input order |
| Render.RuleReadsBack | mate/gfwlist.go:62-68 | each of the three rule formats can be parsed back to its kind and to the value it was rendered from |
| Render.SelectRule | mate/gfwlist.go:62-68 | reading back a list that starts with a rendered rule yields that rule's value under its own kind only |
| Render.SelectBlock | mate/gfwlist.go:61-69 | reading one rendered block back gives its values in order for its own kind, and nothing for the other kinds |
| Render.RenderRoundTrip | mate/gfwlist.go:58-72 | reading the rendered rules back by kind recovers the keyword, IP and domain lists exactly; no line reads as an unknown kind |
| Render.RuleAt | mate/gfwlist.go:58-72 | the output has one rule per input entry, and the rule at position i is the corresponding rule of the keyword, IP or domain block |
| Render.BlockAt | mate/gfwlist.go:61-69 | a block has one rule per entry, and its j-th rule renders its j-th entry |
| Render.BlockTags | mate/gfwlist.go:61-69 | every rule of a block reads back as the block's kind |
| Render.RuleTagAt | mate/gfwlist.go:58-72 | the rule at position i is a keyword rule, an IP rule or a domain rule according to the block that position falls in |
| Render.RenderBlockOrder | mate/gfwlist.go:58-72 | the output has len(keywords)+len(ips)+len(domains) rules, and every keyword rule precedes every IP rule, which precedes every domain rule |
| GoStrings.HasPrefix | mate/gfwlist.go:142 | strings.HasPrefix: holds if and only if the prefix is no longer than s and agrees with s character by character |
| GoStrings.HasSuffix | mate/gfwlist.go:178 | strings.HasSuffix: holds if and only if the suffix is no longer than s and agrees with the end of s character by character |
| GoStrings.Join | mate/gfwlist.go:158 | strings.Join with a one-character separator; its contents are stated by JoinSplit, JoinSuffix and CountJoin |
| GoStrings.TrimLeft | mate/gfwlist.go:167-168 | strings.TrimLeft by cutset: removes a prefix made only of cutset characters, and what is left does not start with one |
| GoStrings.TrimRight | mate/gfwlist.go:140 | removes a suffix made only of cutset characters, and what is left does not end with one |
| GoStrings.Trim | mate/gfwlist.go:140 | strings.Trim by cutset: the result is an infix of the input with only cutset characters before and after it, neither of its ends is in the cutset, and it is the input itself when neither end of the input is in the cutset |
| GoStrings.TrimIsInfix | mate/gfwlist.go:140 | trimming left then right leaves an infix with only cutset characters around it |
| GoStrings.InfixUnique | mate/gfwlist.go:140 | two infixes at given offsets, each with only cutset characters around it and none at either end, are equal |
| GoStrings.TrimmedUnique | mate/gfwlist.go:140 | at most one infix of a string has only cutset characters around it and none at either end |
| GoStrings.TrimIsUnique | mate/gfwlist.go:140 | Trim returns that one infix: any infix with the two properties is the result of Trim |
| GoStrings.Split | mate/gfwlist.go:157 | strings.Split with a one-character separator: one more piece than separators, and no piece contains the separator |
| GoStrings.JoinSplit | mate/gfwlist.go:157-158 | joining the pieces of a split with the same separator gives the original string back |
| GoStrings.CountJoin | mate/gfwlist.go:158 | a join of k separator-free pieces holds exactly k-1 separators |
| GoStrings.JoinSuffix | mate/gfwlist.go:157-158 | joining the pieces from index k on gives a suffix of the split string; for k > 0 that suffix starts right after a separator |
| GoStrings.CountTrim | mate/gfwlist.go:140 | trimming never removes a character outside the cutset, so the number of dots is unchanged |
| GoStrings.TrimLeftPrefix | mate/gfwlist.go:167-176 | TrimLeft removes exactly a leading run of cutset characters up to the first character outside the cutset |
| GoStrings.SplitAtFirst | mate/gfwlist.go:157 | splitting at the first separator: the first piece is the text before it, and the rest is the split of the text after it |
| GoStrings.SplitWithoutSeparator | mate/gfwlist.go:157 | a string without the separator splits into itself alone |
| Classify.UrlText | mate/gfwlist.go:142-145 | a line that already starts with "http://" is unescaped as it is, any other line with "http://" in front; a failed unescape leaves the empty string |
| Classify.Returned | mate/gfwlist.go:139-141 | the deferred rewrite keeps the tag; the value is the given value with runs of `*` removed from both ends, so it never begins or ends with `*` |
| Classify.LastTwoLabels | mate/gfwlist.go:157-158 | the slice panics if and only if the host has no dot; otherwise the result is a suffix of the host that holds exactly one dot and is the whole host or starts right after a dot; a host with exactly one dot is returned whole |
| Classify.DomainOf | mate/gfwlist.go:139-141 | a slice panic is passed on; otherwise the result is the labels with runs of `*` removed from both ends, as a domain with as many dots as the labels |
| Classify.TwoLabelDomain | mate/gfwlist.go:157-158 | two-label mode on a non-IP host panics if and only if the host has no dot; otherwise it yields a domain with exactly one dot and no `*` at either end |
| Classify.TryGetDomain | mate/gfwlist.go:138-159 | only two-label mode can panic; the tag is never a keyword; the value never begins or ends with `*`; the result is (unknown, "") if and only if the URL does not parse; a two-label domain holds exactly one dot |
| Classify.ParseLine | mate/gfwlist.go:165-192 | a panic is possible only for lines starting with "http://" or "."; an unknown classification carries the empty value |
| Classify.DoublePipeTakesFullHost | mate/gfwlist.go:166-170 | a "\|\|" line is caught by the "\|" test: it is looked up in full-host mode after the two cutset trims, and it never panics |
| Classify.DoublePipeEatsHostStart | mate/gfwlist.go:166-169 | after the "\|" trim, the "http://" cutset trim also eats a leading h, t, p, ':' or '/' of the host |
| Classify.HttpLineEatsHostStart | mate/gfwlist.go:170-174 | an "http://" line loses the scheme and also a host character that is in the cutset, then is looked up in two-label mode |
| Classify.DotLineIsTwoLabelLookup | mate/gfwlist.go:175-182 | a "." line is classified exactly as tryGetDomainOrIP classifies it after the dot trim; the wildcard test never succeeds |
| Classify.DotLineLookup | mate/gfwlist.go:175-177 | "." followed by a host that does not start with a dot is looked up, in two-label mode, as that host |
| Classify.NoKeywordClassification | mate/gfwlist.go:175-182 | no line is ever classified as a domain keyword |
| Classify.DotlessLine | mate/gfwlist.go:183-191 | a line without a dot and without a "\|" or "http://" prefix is an IP when isIP accepts it, and (unknown, "") otherwise |
| Classify.DottedLine | mate/gfwlist.go:183-185 | a dotted line with none of the "\|", "http://", "." prefixes is exactly the full-host lookup of the line |
| Classify.DottedIPLine | mate/gfwlist.go:183-185 | such a line whose URL host is itself and is an IP without `*` ends is classified as that IP |
| Classify.DottedDomainLine | mate/gfwlist.go:183-185 | such a line whose URL host is itself and is not an IP is classified as a domain with all its labels kept |
| Classify.LookupOfUnparsable | mate/gfwlist.go:146-150 | a URL that does not parse gives (unknown, ""), in either mode |
| Classify.LookupOfIP | mate/gfwlist.go:151-153 | a lookup whose host is an IP returns that host, `*`-trimmed, as an IP, in either mode |
| Classify.LookupOfPlainIP | mate/gfwlist.go:151-153 | an IP host without `*` at either end is returned unchanged, in either mode |
| Classify.LookupOfFullHost | mate/gfwlist.go:154-155 | a full-host lookup of a non-IP host returns the whole host, `*`-trimmed, as a domain |
| Classify.LookupOfSingleLabel | mate/gfwlist.go:157-158 | a two-label lookup of a non-IP host without a dot panics |
| Classify.TrailingStarTrimmed | mate/gfwlist.go:140 | a host ending in one `*` loses it: "google.*" is returned as "google." |
| Classify.DomainOfLabels | mate/gfwlist.go:139-141 | labels without `*` at either end come back unchanged as a domain |
| Classify.LookupOfDomain | mate/gfwlist.go:154-158 | a two-label lookup of a non-IP host returns the host's last two labels, `*`-trimmed, as a domain |
| Classify.LookupOfPlainDomain | mate/gfwlist.go:154-158 | when those labels have no `*` at either end they are returned unchanged |
| Classify.LastTwoOfThree | mate/gfwlist.go:157-158 | the last two labels of "sub.name.tld" are "name.tld" |
| Classify.DotPrefixedLine | mate/gfwlist.go:175-182 | ".sub.name.tld" is classified as the domain "name.tld" |
| Classify.DotPrefixedSingleLabel | mate/gfwlist.go:157-158 | a "." line whose host has a single label panics on the two-label slice |
| Buckets.Skipped | mate/gfwlist.go:202-209 | a line is skipped if and only if it is empty or starts with "!", "[", "/" or "@" |
| Buckets.Route | mate/gfwlist.go:212-219 | the switch appends the value to the bucket its tag names and leaves the other buckets unchanged; unknown changes nothing |
| Buckets.CollectSnoc | mate/gfwlist.go:200-220 | scanning one more line is one more loop iteration |
| Buckets.PanicIsFinal | mate/gfwlist.go:200-220 | once the scan panics on a prefix of the lines, it panics on all of them |
| Buckets.ParseToList | mate/gfwlist.go:197-222 | the scan loop panics exactly when `Collect` does; otherwise it returns the deduplicated domain and IP buckets, the keyword bucket as collected, and the scanner's error flag |
| Buckets.SkippedLineAddsNothing | mate/gfwlist.go:202-209 | an empty line, or one starting with '!', '[', '/' or '@', changes no bucket wherever it stands |
| Buckets.CollectPanics | mate/gfwlist.go:200-220 | the scan panics if and only if the classifier panics on some line that is not skipped |
| Buckets.CollectMembers | mate/gfwlist.go:211-219 | a value is in the bucket of a tag if and only if some non-skipped line is classified with that tag and value; unknown goes nowhere |
| Buckets.Origins | mate/gfwlist.go:200-219 | the indices, in increasing order, of exactly the non-skipped lines classified with a tag |
| Buckets.OriginsSnoc | mate/gfwlist.go:200-219 | one more line adds its index when it feeds the tag, and nothing otherwise |
| Buckets.BucketStep | mate/gfwlist.go:211-219 | one iteration adds the line's value to the bucket of its tag and to no other bucket |
| Buckets.BucketOrigins | mate/gfwlist.go:211-221 | a bucket has one value per line classified with its tag, and its k-th value is the value of the k-th such line; so line order and duplicates are kept |
| Buckets.CollectSize | mate/gfwlist.go:211-219 | each line adds at most one value to one bucket |
| Buckets.KeywordBucketEmpty | mate/gfwlist.go:217-218 | the keyword bucket stays empty, because no line is classified as a keyword |
| Provider.GfwlistProvider.constructor | mate/gfwlist.go:224-225 | a new provider publishes the empty document |
| Provider.GfwlistProvider.Update | mate/gfwlist.go:74-95 | on success `rules` becomes the marshalled rendering of the parsed lists and no error is returned; on any failure the error is returned and `rules` keeps its previous value |
| Provider.PublishedRules | mate/gfwlist.go:74-95 | a published document comes from a successful download and an error-free, panic-free scan; it marshals rules that hold no keyword rule, and whose IP and domain values are distinct and non-empty |

## Left out

- `download` (mate/gfwlist.go:120-132) is network I/O. Its result is the `Fetch` parameter of `Update`: a failure, or the decoded lines.
- Base64 decoding and `bufio.Scanner` line splitting (mate/gfwlist.go:199-201) are library stream handling. The model takes the lines already read, plus whether the scanner stopped on an error (`Scan`).
- `start` and `newGfwlistProvider` (mate/gfwlist.go:97-118, 224-228) are a goroutine with a timer loop. They are scheduling, not logic. The constructor covers only the zero value of `rules`, and the `interval` field is not modelled.
- `Handle` and the `sync.RWMutex` (mate/gfwlist.go:52-56, 91-93) exist for concurrent readers. Only the sequential assign-on-success effect is modelled.
- The bodies of `url.QueryUnescape`, `url.Parse`/`Hostname`, `net.ParseIP` (`isIP`, mate/gfwlist.go:161-163) and `yaml.Marshal` are foreign library code and are left uninterpreted.
  - A failed `QueryUnescape` is read as the empty string, which is what the ignored error leaves.
  - `marshal` receives the rule list that goes under the `payload` key.
- Logging calls (mate/gfwlist.go:102-104, 148) have no effect on the results.
- In the running program, a panic in the two-label slice ends the process. The model reports it as `Panicked`, and `rules` keeps its value.
- Go strings are UTF-8 bytes. The model uses sequences of characters; the markers involved ('|', '.', '*', the cutsets) are ASCII either way.
- mate/server.go is not part of this model. It holds only HTTP handler registration and serving.
