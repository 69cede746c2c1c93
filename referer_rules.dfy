/** The ordered host-pattern table that picks a spoofed Referer for image
    hosts with hotlink protection. The table is the same in
    supabase/functions/image-transformer/lib/image-fetcher.ts and
    cloudflare/image-proxy/lib/image-fetcher.ts. Each regular expression is
    anchored at the start and not at the end; they are written out here as
    string predicates. */
module RefererRules {

  import opened Wrappers
  import Text
  import Upstream

  /** `\w` and `[\w-]` (also written `(?:\w|-)`). */
  datatype CharClass = Word | WordOrDash

  predicate IsWordChar(c: char) {
    ('A' <= c <= 'Z') || ('a' <= c <= 'z') || ('0' <= c <= '9') || c == '_'
  }

  predicate InClass(c: char, cls: CharClass) {
    IsWordChar(c) || (cls == WordOrDash && c == '-')
  }

  /** The two shapes in the table: a literal prefix, or a scheme, a
      non-empty label of one character class, and a literal domain
      (`^https:\/\/\w+\.sinaimg\.cn`). */
  datatype HostPattern =
    | Prefix(literal: string)
    | Subdomain(schemes: seq<string>, labelClass: CharClass, domain: string)

  predicate StartsWithAt(s: string, at: nat, literal: string) {
    at <= |s| && Text.StartsWith(s[at..], literal)
  }

  /** The end of the longest run of `cls` characters from `start`. */
  function RunEnd(s: string, start: nat, cls: CharClass): (end: nat)
    requires start <= |s|
    ensures start <= end <= |s|
    ensures forall j :: start <= j < end ==> InClass(s[j], cls)
    ensures end < |s| ==> !InClass(s[end], cls)
    decreases |s| - start
  {
    if start < |s| && InClass(s[start], cls) then RunEnd(s, start + 1, cls) else start
  }

  /** The label and domain from `start`, as the greedy match reads them. */
  predicate LabelThenDomain(s: string, start: nat, cls: CharClass, domain: string) {
    start <= |s| &&
    var end := RunEnd(s, start, cls);
    end > start && StartsWithAt(s, end, domain)
  }

  /** What the backtracking regular-expression engine accepts for
      `[cls]+` followed by `domain`: some non-empty run, not necessarily the
      longest. */
  ghost predicate RegexLabelThenDomain(s: string, start: nat, cls: CharClass, domain: string) {
    exists k :: start < k <= |s| && (forall j :: start <= j < k ==> InClass(s[j], cls)) && StartsWithAt(s, k, domain)
  }

  /** Greedy reading loses nothing: the domain starts with a character
      outside the label's class (a dot), so any run the engine could stop at
      is the longest one. */
  lemma GreedyLabelIsExact(s: string, start: nat, cls: CharClass, domain: string)
    requires start <= |s|
    requires domain != [] && !InClass(domain[0], cls)
    ensures LabelThenDomain(s, start, cls, domain) <==> RegexLabelThenDomain(s, start, cls, domain)
  {
    var end := RunEnd(s, start, cls);
    if RegexLabelThenDomain(s, start, cls, domain) {
      var k :| start < k <= |s| && (forall j :: start <= j < k ==> InClass(s[j], cls)) && StartsWithAt(s, k, domain);
      assert s[k..][0] == domain[0];
      assert k == end;
    }
    if LabelThenDomain(s, start, cls, domain) {
      assert start < end <= |s| && (forall j :: start <= j < end ==> InClass(s[j], cls)) && StartsWithAt(s, end, domain);
    }
  }

  function SchemeThenLabel(s: string, schemes: seq<string>, cls: CharClass, domain: string): bool {
    if schemes == [] then false
    else (Text.StartsWith(s, schemes[0]) && LabelThenDomain(s, |schemes[0]|, cls, domain)) ||
         SchemeThenLabel(s, schemes[1..], cls, domain)
  }

  /** `pattern.test(href)` */
  predicate Matches(pattern: HostPattern, href: string) {
    match pattern
    case Prefix(literal) => Text.StartsWith(href, literal)
    case Subdomain(schemes, cls, domain) => SchemeThenLabel(href, schemes, cls, domain)
  }

  /** One row of `imageRefererMatches`. */
  datatype RefererRule = RefererRule(pattern: HostPattern, referer: string, force: bool)

  const IMAGE_REFERER_MATCHES: seq<RefererRule> := [
    RefererRule(Subdomain(["https://"], Word, ".sinaimg.cn"), "https://weibo.com", false),
    RefererRule(Prefix("https://i.pximg.net"), "https://www.pixiv.net", false),
    RefererRule(Prefix("https://cdnfile.sspai.com"), "https://sspai.com", false),
    RefererRule(Subdomain(["https://"], WordOrDash, ".cdninstagram.com"), "https://www.instagram.com", false),
    RefererRule(Prefix("https://sp1.piokok.com"), "https://www.piokok.com", true),
    RefererRule(Subdomain(["https://", "http://"], WordOrDash, ".xhscdn.com"), "https://www.xiaohongshu.com", false)
  ]

  /** The position `rules.find(...)` stops at: the first rule that matches. */
  function FindIndex(rules: seq<RefererRule>, href: string): (r: Option<nat>)
    ensures r.Some? ==> (r.value < |rules| && Matches(rules[r.value].pattern, href) &&
      forall j :: 0 <= j < r.value ==> !Matches(rules[j].pattern, href))
    ensures r.None? ==> forall j :: 0 <= j < |rules| ==> !Matches(rules[j].pattern, href)
  {
    if rules == [] then None
    else if Matches(rules[0].pattern, href) then Some(0)
    else match FindIndex(rules[1..], href)
      case None => None
      case Some(i) => Some(i + 1)
  }

  /** `imageRefererMatches.find(({ url }) => url.test(href))` */
  function FindRule(href: string): (r: Option<RefererRule>)
    ensures r.Some? <==> exists i :: 0 <= i < |IMAGE_REFERER_MATCHES| && Matches(IMAGE_REFERER_MATCHES[i].pattern, href)
    ensures r.Some? ==> exists i :: (0 <= i < |IMAGE_REFERER_MATCHES| && r.value == IMAGE_REFERER_MATCHES[i] &&
      Matches(r.value.pattern, href) && forall j :: 0 <= j < i ==> !Matches(IMAGE_REFERER_MATCHES[j].pattern, href))
  {
    match FindIndex(IMAGE_REFERER_MATCHES, href)
    case None => None
    case Some(i) => Some(IMAGE_REFERER_MATCHES[i])
  }

  /** Only the piokok rule forces an Origin header. */
  lemma OnlyPiokokForces(href: string)
    requires FindRule(href).Some? && FindRule(href).value.force
    ensures FindRule(href).value.referer == "https://www.piokok.com"
  {
  }

  /** A Weibo image host matches the first rule; a dotted label does not,
      since `\w` excludes the dot. */
  lemma {:induction false} SinaExamples()
    ensures FindRule("https://wx1.sinaimg.cn/x.jpg") == Some(IMAGE_REFERER_MATCHES[0])
    ensures !Matches(IMAGE_REFERER_MATCHES[0].pattern, "https://a.b.sinaimg.cn")
  {
    var s := "https://wx1.sinaimg.cn/x.jpg";
    assert Text.StartsWith(s, "https://");
    assert RunEnd(s, 11, Word) == 11;
    assert RunEnd(s, 8, Word) == 11;
    assert s[11..][..11] == ".sinaimg.cn";
    assert Matches(IMAGE_REFERER_MATCHES[0].pattern, s);
    var t := "https://a.b.sinaimg.cn";
    assert RunEnd(t, 9, Word) == 9;
    assert RunEnd(t, 8, Word) == 9;
    assert t[9..][..|".sinaimg.cn"|] != ".sinaimg.cn" by {
      assert t[9..][2] == '.';
    }
  }

  /** The Referer and Origin a fetcher derives for a parsed image URL. */
  datatype Resolved = Resolved(referer: string, origin: string)

  /** `resolveRefererFor(parsed)`, written inline in the Supabase fetcher:
      without a matching rule both are the image's own origin; with one,
      the referer is the rule's and the origin is the referer's parsed
      origin, or the referer itself when it does not parse. */
  function ResolveRefererFor(parsed: Upstream.Url, parse: Upstream.UrlParser): (r: Resolved)
    ensures FindRule(parsed.href).None? ==> r == Resolved(parsed.origin, parsed.origin)
    ensures FindRule(parsed.href).Some? ==> r.referer == FindRule(parsed.href).value.referer
    ensures FindRule(parsed.href).Some? && parse(r.referer).Some? ==> r.origin == parse(r.referer).value.origin
    ensures FindRule(parsed.href).Some? && parse(r.referer).None? ==> r.origin == r.referer
  {
    match FindRule(parsed.href)
    case None => Resolved(parsed.origin, parsed.origin)
    case Some(rule) =>
      match parse(rule.referer)
      case Some(refererUrl) => Resolved(rule.referer, refererUrl.origin)
      case None => Resolved(rule.referer, rule.referer)
  }

  /** Every referer in the table is a bare origin; a parser that gives such a
      string back as its own origin makes both headers equal. */
  lemma MatchedRefererIsOwnOrigin(parsed: Upstream.Url, parse: Upstream.UrlParser)
    requires FindRule(parsed.href).Some?
    requires forall i :: 0 <= i < |IMAGE_REFERER_MATCHES| ==>
      parse(IMAGE_REFERER_MATCHES[i].referer).Some? &&
      parse(IMAGE_REFERER_MATCHES[i].referer).value.origin == IMAGE_REFERER_MATCHES[i].referer
    ensures ResolveRefererFor(parsed, parse).origin == ResolveRefererFor(parsed, parse).referer
    ensures ResolveRefererFor(parsed, parse).referer != "" && ResolveRefererFor(parsed, parse).referer != "null"
  {
  }
}
