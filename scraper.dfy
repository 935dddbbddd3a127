/** The job page scraper: fetch a posting and fill the job fields from meta
    tags, CSS selector candidates and heading sections, each with its own
    length heuristics. The parsed page is abstracted to what the heuristics
    look at: the two meta tags, the text each selector's first match would
    give, and the headings with their following siblings. */
module Scraper {
  import opened Common

  /** The scraper's result; every field defaults to the empty string. */
  datatype ScrapedJob = ScrapedJob(
    title: string,
    company: string,
    location: string,
    jobType: string,
    description: string,
    requirements: string,
    salary: string,
    postedDate: string)

  const EmptyJob: ScrapedJob := ScrapedJob("", "", "", "", "", "", "", "")

  /** A `<meta property=...>` tag: absent, or present with its `content` attribute if any. */
  datatype Meta = Absent | Present(content: Option<string>)

  /** A sibling node after a heading: its tag name (`None` for a text node) and its text,
      already stripped as the collecting loop computes it. */
  datatype Node = Node(name: Option<string>, text: string)

  /** A `h2`/`h3`/`h4`/`strong` element: its text and the siblings that follow it. */
  datatype Heading = Heading(text: string, following: seq<Node>)

  /** The parsed page. `selectText(sel)` is the stripped text of the first element matching
      `sel`, `None` when nothing matches; `selectBlock(sel)` is the same for a description
      container, once its script, style, nav, header and footer children are removed and
      its text joined with new lines. `headings` are in document order, as they stand once
      the container loop has removed those children from the document. */
  datatype Page = Page(
    ogTitle: Meta,
    ogSiteName: Meta,
    selectText: string -> Option<string>,
    selectBlock: string -> Option<string>,
    headings: seq<Heading>)

  /** Fetching and parsing a URL: `None` when the request fails or answers with an error status. */
  type Fetcher = string -> Option<Page>

  const TitleSelectors: seq<string> := ["h1", ".job-title", ".position-title", "[class*=\"title\"]"]
  const CompanySelectors: seq<string> := [".company-name", ".employer", "[class*=\"company\"]"]
  const LocationSelectors: seq<string> := [".location", ".job-location", "[class*=\"location\"]", "span[class*=\"loc\"]"]
  const DescriptionSelectors: seq<string> :=
    [".job-description", "#job-description", "[class*=\"description\"]", "[class*=\"job-body\"]", "article", "main"]
  const HeadingKeywords: seq<string> :=
    ["description", "what you will do", "responsibilities", "requirements", "about the role"]
  const SkippedNames: seq<string> := ["script", "style", "nav", "footer"]

  /** A location candidate is kept only below this length. */
  const MaxLocationLength: nat := 100
  /** A parenthesised location is kept only below this length. */
  const MaxParenLocationLength: nat := 30
  /** A description container is used only above this length. */
  const MinDescriptionLength: nat := 200
  /** The sibling collection stops once it holds more than this many texts. */
  const SiblingCap: nat := 20

  /** The tests the selector loops apply to a candidate's text. */
  predicate AnyText(t: string) { true }
  predicate ShortLocation(t: string) { |t| < MaxLocationLength }
  predicate LongDescription(t: string) { |t| > MinDescriptionLength }

  // ---------------------------------------------------------------------
  // The pure string steps

  /** A URL without an http:// or https:// prefix gets https:// in front. */
  function NormaliseUrl(url: string): (r: string)
    ensures "http://" <= url || "https://" <= url ==> r == url
    ensures !("http://" <= url || "https://" <= url) ==> r == "https://" + url
    ensures "http://" <= r || "https://" <= r
  {
    if "http://" <= url || "https://" <= url then url else "https://" + url
  }

  lemma NormaliseUrlIdempotent(url: string)
    ensures NormaliseUrl(NormaliseUrl(url)) == NormaliseUrl(url)
  {
  }

  /** `s.split(c)[0]`: the part of `s` before the first `c` (all of `s` without one). */
  function BeforeFirst(s: string, c: char): (r: string)
    ensures r <= s && c !in r
    ensures |r| < |s| ==> s[|r|] == c
  {
    if s == [] || s[0] == c then [] else [s[0]] + BeforeFirst(s[1..], c)
  }

  /** `og_title.get("content", "").split("|")[0].strip()`, or "" without the tag. */
  function OgTitle(m: Meta): (r: string)
    ensures '|' !in r
    ensures m.Absent? ==> r == ""
    ensures r != [] ==> !IsSpace(r[0]) && !IsSpace(r[|r| - 1])
  {
    if m.Absent? then ""
    else
      var cut := BeforeFirst(if m.content.Some? then m.content.value else "", '|');
      StripInside(cut);
      Strip(cut)
  }

  /** With the tag present, og:title is the content up to its first `|`, less white space
      on either side: the cut is white space, the title, then white space. */
  lemma OgTitleIsTrimmedCut(m: Meta)
    requires m.Present?
    ensures var cut := BeforeFirst(if m.content.Some? then m.content.value else "", '|');
      cut == Lead(cut) + OgTitle(m) + Trail(cut) && AllSpace(Lead(cut)) && AllSpace(Trail(cut))
  {
    StripSplits(BeforeFirst(if m.content.Some? then m.content.value else "", '|'));
  }

  /** Stripping keeps a contiguous part of the string. */
  lemma StripInside(s: string)
    ensures forall c :: c in Strip(s) ==> c in s
  {
    var l := TrimLeft(s);
    assert forall c :: c in TrimRight(l) ==> c in l;
    assert forall c :: c in l ==> c in s;
  }

  /** `og_site_name.get("content", "")`, or "" without the tag. */
  function OgSiteName(m: Meta): (r: string)
    ensures m.Absent? || m.content.None? ==> r == ""
    ensures m.Present? && m.content.Some? ==> r == m.content.value
  {
    match m
    case Absent => ""
    case Present(content) => if content.Some? then content.value else ""
  }

  /** The first candidate, in selector order, that matches and whose text passes `ok`;
      that is the selector loop with its `break`. */
  function FirstMatch(sels: seq<string>, text: string -> Option<string>, ok: string -> bool): (r: Option<string>)
    ensures r.Some? ==> ok(r.value) && exists i :: 0 <= i < |sels| && text(sels[i]) == r
    ensures r.None? <==> forall i :: 0 <= i < |sels| ==> text(sels[i]).None? || !ok(text(sels[i]).value)
    ensures r.Some? ==>
      exists i :: 0 <= i < |sels| && text(sels[i]) == r &&
        forall j :: 0 <= j < i ==> text(sels[j]).None? || !ok(text(sels[j]).value)
  {
    match FindFirst(sels, (sel: string) => text(sel).Some? && ok(text(sel).value))
    case None => None
    case Some(i) => text(sels[i])
  }

  /** Index of the first `)` at or after `j`. */
  function CloseFrom(s: string, j: nat): (r: Option<nat>)
    ensures r.Some? ==> j <= r.value < |s| && s[r.value] == ')' && forall k :: j <= k < r.value ==> s[k] != ')'
    ensures r.None? ==> forall k :: j <= k < |s| ==> s[k] != ')'
    decreases |s| - j
  {
    if j >= |s| then None else if s[j] == ')' then Some(j) else CloseFrom(s, j + 1)
  }

  /** What `\(([^)]+)\)` captures when tried at position `i`: a `(`, then one or more
      characters other than `)`, then `)`. */
  function GroupAt(s: string, i: nat): (r: Option<string>)
    requires i < |s|
    ensures r.Some? ==> s[i] == '(' && r.value != [] && ')' !in r.value && i + |r.value| + 2 <= |s|
    ensures r.Some? ==> s[i + 1..i + 1 + |r.value|] == r.value && s[i + 1 + |r.value|] == ')'
    ensures s[i] == '(' && (exists j :: i + 1 < j < |s| && s[j] == ')' && forall k :: i < k < j ==> s[k] != ')') ==>
      r.Some?
  {
    if s[i] != '(' then None
    else match CloseFrom(s, i + 1)
      case None => None
      case Some(j) => if j > i + 1 then Some(s[i + 1..j]) else None
  }

  /** `re.search(r'\(([^)]+)\)', s).group(1)`, searching from position `i`: the leftmost
      position where the pattern matches wins. */
  function ParenGroupFrom(s: string, i: nat): (r: Option<string>)
    ensures r.Some? ==> r.value != [] && ')' !in r.value && |r.value| + 2 <= |s|
    ensures (forall k :: i <= k < |s| ==> s[k] != '(') ==> r.None?
    ensures r.Some? <==> exists k :: i <= k < |s| && GroupAt(s, k).Some?
    ensures r.Some? ==>
      exists k :: i <= k < |s| && r == GroupAt(s, k) && forall m :: i <= m < k ==> GroupAt(s, m).None?
    decreases |s| - i
  {
    if i >= |s| then None
    else if GroupAt(s, i).Some? then GroupAt(s, i)
    else
      var r := ParenGroupFrom(s, i + 1);
      assert r.Some? ==>
        exists k :: i <= k < |s| && r == GroupAt(s, k) && forall m :: i <= m < k ==> GroupAt(s, m).None?
      by {
        if r.Some? {
          var k :| i + 1 <= k < |s| && r == GroupAt(s, k) && forall m :: i + 1 <= m < k ==> GroupAt(s, m).None?;
          assert forall m :: i <= m < k ==> GroupAt(s, m).None?;
        }
      }
      r
  }

  function ParenGroup(s: string): (r: Option<string>)
    ensures r.Some? ==> r.value != [] && ')' !in r.value && |r.value| + 2 <= |s|
    ensures '(' !in s ==> r.None?
    ensures r.Some? <==> exists k :: 0 <= k < |s| && GroupAt(s, k).Some?
    ensures r.Some? ==>
      exists k :: 0 <= k < |s| && r == GroupAt(s, k) && forall m :: 0 <= m < k ==> GroupAt(s, m).None?
  {
    ParenGroupFrom(s, 0)
  }

  /** A title holding a `(` immediately followed by `)` and nothing else in parentheses
      yields no group. */
  lemma EmptyParensNoGroup()
    ensures ParenGroup("()") == None
  {
    assert GroupAt("()", 0) == None by { assert CloseFrom("()", 1) == Some(1); }
    assert ParenGroupFrom("()", 1) == None;
  }

  /** The sibling loop: skip script, style, nav and footer nodes without looking at the
      cap, append each other node's non-empty text, and stop once more than `SiblingCap`
      texts are held. */
  function Collect(nodes: seq<Node>, content: seq<string>): (r: seq<string>)
    ensures content <= r
    ensures forall i :: |content| <= i < |r| ==> r[i] != ""
    ensures |content| <= SiblingCap ==> |r| <= SiblingCap + 1
  {
    if nodes == [] then content
    else if nodes[0].name.Some? && nodes[0].name.value in SkippedNames then Collect(nodes[1..], content)
    else
      var more := if nodes[0].text != "" then content + [nodes[0].text] else content;
      if |more| > SiblingCap then more else Collect(nodes[1..], more)
  }

  /** The texts the sibling walk would keep with no cap: the non-empty texts of the nodes
      that are not script, style, nav or footer, in order. */
  function Kept(nodes: seq<Node>): (r: seq<string>)
    ensures forall i :: 0 <= i < |r| ==> r[i] != ""
  {
    if nodes == [] then []
    else if (nodes[0].name.Some? && nodes[0].name.value in SkippedNames) || nodes[0].text == "" then Kept(nodes[1..])
    else [nodes[0].text] + Kept(nodes[1..])
  }

  /** The walk keeps the kept texts in order, up to the first one that takes the
      collection past `SiblingCap`. */
  lemma {:induction false} CollectKeeps(nodes: seq<Node>, content: seq<string>)
    requires |content| <= SiblingCap
    ensures Collect(nodes, content) == content + Kept(nodes)[..Min(|Kept(nodes)|, SiblingCap + 1 - |content|)]
  {
    if nodes != [] {
      var kept := Kept(nodes);
      var n := Min(|kept|, SiblingCap + 1 - |content|);
      if (nodes[0].name.Some? && nodes[0].name.value in SkippedNames) || nodes[0].text == "" {
        CollectKeeps(nodes[1..], content);
      } else {
        var more := content + [nodes[0].text];
        assert kept == [nodes[0].text] + Kept(nodes[1..]);
        if |more| > SiblingCap {
          assert n == 1;
          assert kept[..n] == [nodes[0].text];
        } else {
          CollectKeeps(nodes[1..], more);
          assert kept[..n] == [nodes[0].text] + Kept(nodes[1..])[..n - 1];
        }
      }
    }
  }

  /** A heading opens a description section when its lower-cased text contains a keyword. */
  predicate IsSectionHeading(h: Heading)
  {
    ContainsAny(Lower(h.text), HeadingKeywords)
  }

  /** A heading opens a section exactly when one of the keywords occurs somewhere in its
      lower-cased text. */
  lemma SectionHeadingIff(h: Heading)
    ensures IsSectionHeading(h) <==>
      exists j, i :: 0 <= j < |HeadingKeywords| && OccursAt(Lower(h.text), HeadingKeywords[j], i)
  {
    var text, keys := Lower(h.text), HeadingKeywords;
    AnyContainsIff(text, keys);
    if IsSectionHeading(h) {
      var j, i :| 0 <= j < |keys| && OccursAt(text, keys[j], i);
      assert OccursAt(Lower(h.text), HeadingKeywords[j], i);
    }
  }

  /** A section heading whose following siblings yield some text. */
  predicate Opens(h: Heading)
  {
    IsSectionHeading(h) && Collect(h.following, []) != []
  }

  /** The header fallback: the first section heading whose siblings yield some text,
      those texts joined with new lines. */
  function SectionDescription(hs: seq<Heading>): (r: Option<string>)
  {
    if hs == [] then None
    else if Opens(hs[0]) then Some(Join('\n', Collect(hs[0].following, [])))
    else SectionDescription(hs[1..])
  }

  /** The first heading that opens a section, in document order, gives the description;
      there is none exactly when no heading opens one. */
  lemma {:induction false} SectionDescriptionFirst(hs: seq<Heading>)
    ensures SectionDescription(hs).None? <==> forall i :: 0 <= i < |hs| ==> !Opens(hs[i])
    ensures SectionDescription(hs).Some? ==>
      exists i :: 0 <= i < |hs| && Opens(hs[i]) && SectionDescription(hs) == Some(Join('\n', Collect(hs[i].following, []))) &&
        forall j :: 0 <= j < i ==> !Opens(hs[j])
  {
    if hs != [] && !Opens(hs[0]) {
      var tail := hs[1..];
      SectionDescriptionFirst(tail);
      assert forall i :: 1 <= i < |hs| ==> hs[i] == tail[i - 1];
      if SectionDescription(tail).Some? {
        var i :| 0 <= i < |tail| && Opens(tail[i]) && SectionDescription(tail) == Some(Join('\n', Collect(tail[i].following, []))) &&
          forall j :: 0 <= j < i ==> !Opens(tail[j]);
        assert hs[i + 1] == tail[i];
      }
    } else if hs != [] {
      assert Opens(hs[0]);
    }
  }

  /** The fields the scraper fills from a fetched page. The title is og:title cut at `|`
      when that is not empty, else the text of the first title selector that matches
      anything, else empty. */
  function Title(page: Page): (r: string)
    ensures OgTitle(page.ogTitle) != "" ==> r == OgTitle(page.ogTitle)
    ensures OgTitle(page.ogTitle) == "" && (forall i :: 0 <= i < |TitleSelectors| ==> page.selectText(TitleSelectors[i]).None?) ==>
      r == ""
    ensures OgTitle(page.ogTitle) == "" && (exists i :: 0 <= i < |TitleSelectors| && page.selectText(TitleSelectors[i]).Some?) ==>
      exists i :: 0 <= i < |TitleSelectors| && page.selectText(TitleSelectors[i]) == Some(r) &&
        forall j :: 0 <= j < i ==> page.selectText(TitleSelectors[j]).None?
  {
    var og := OgTitle(page.ogTitle);
    if og != "" then og
    else match FirstMatch(TitleSelectors, page.selectText, AnyText)
      case None => og
      case Some(t) => t
  }

  /** og:site_name when not empty, else the text of the first company selector that
      matches anything, else empty. */
  function Company(page: Page): (r: string)
    ensures OgSiteName(page.ogSiteName) != "" ==> r == OgSiteName(page.ogSiteName)
    ensures OgSiteName(page.ogSiteName) == "" && (forall i :: 0 <= i < |CompanySelectors| ==> page.selectText(CompanySelectors[i]).None?) ==>
      r == ""
    ensures OgSiteName(page.ogSiteName) == "" && (exists i :: 0 <= i < |CompanySelectors| && page.selectText(CompanySelectors[i]).Some?) ==>
      exists i :: 0 <= i < |CompanySelectors| && page.selectText(CompanySelectors[i]) == Some(r) &&
        forall j :: 0 <= j < i ==> page.selectText(CompanySelectors[j]).None?
  {
    var og := OgSiteName(page.ogSiteName);
    if og != "" then og
    else match FirstMatch(CompanySelectors, page.selectText, AnyText)
      case None => og
      case Some(t) => t
  }

  /** The text of the first location selector whose text is under 100 characters; when
      that is missing or empty, a parenthesised part of the title under 30 characters. */
  function Location(page: Page, title: string): (r: string)
    ensures |r| < MaxLocationLength
    ensures r != "" ==>
      (exists i :: 0 <= i < |LocationSelectors| && page.selectText(LocationSelectors[i]) == Some(r)) ||
      (ParenGroup(title) == Some(r) && |r| < MaxParenLocationLength)
    ensures (forall i :: 0 <= i < |LocationSelectors| ==>
               page.selectText(LocationSelectors[i]).None? || |page.selectText(LocationSelectors[i]).value| >= MaxLocationLength) &&
            ParenGroup(title).None? ==>
      r == ""
    ensures var m := FirstMatch(LocationSelectors, page.selectText, ShortLocation);
      m.Some? && m.value != "" ==> r == m.value
    ensures var m := FirstMatch(LocationSelectors, page.selectText, ShortLocation);
      (m.None? || m.value == "") && ParenGroup(title).Some? && |ParenGroup(title).value| < MaxParenLocationLength ==>
        r == ParenGroup(title).value
    ensures var m := FirstMatch(LocationSelectors, page.selectText, ShortLocation);
      (m.None? || m.value == "") && !(ParenGroup(title).Some? && |ParenGroup(title).value| < MaxParenLocationLength) ==>
        r == ""
  {
    var fromSelectors := FirstMatch(LocationSelectors, page.selectText, ShortLocation);
    var location := if fromSelectors.Some? then fromSelectors.value else "";
    if location == "" && '(' in title && ParenGroup(title).Some? && |ParenGroup(title).value| < MaxParenLocationLength
    then ParenGroup(title).value
    else location
  }

  /** The block of the first description container longer than 200 characters, else the
      first heading section's text, else empty. */
  function Description(page: Page): (r: string)
    ensures r != "" ==>
      (exists i :: 0 <= i < |DescriptionSelectors| && page.selectBlock(DescriptionSelectors[i]) == Some(r) &&
         |r| > MinDescriptionLength) ||
      SectionDescription(page.headings) == Some(r)
    ensures (forall i :: 0 <= i < |DescriptionSelectors| ==>
               page.selectBlock(DescriptionSelectors[i]).None? || |page.selectBlock(DescriptionSelectors[i]).value| <= MinDescriptionLength) &&
            SectionDescription(page.headings).None? ==>
      r == ""
    ensures FirstMatch(DescriptionSelectors, page.selectBlock, LongDescription).Some? ==>
      r == FirstMatch(DescriptionSelectors, page.selectBlock, LongDescription).value
    ensures FirstMatch(DescriptionSelectors, page.selectBlock, LongDescription).None? ==>
      r == (if SectionDescription(page.headings).Some? then SectionDescription(page.headings).value else "")
  {
    match FirstMatch(DescriptionSelectors, page.selectBlock, LongDescription)
    case Some(t) => t
    case None =>
      match SectionDescription(page.headings)
      case Some(d) => d
      case None => ""
  }

  /** `scrape_job_details`: the empty job when fetching fails, else the fields found. */
  function Scrape(url: string, fetch: Fetcher): (r: ScrapedJob)
    ensures fetch(NormaliseUrl(url)).None? ==> r == EmptyJob
    ensures r.jobType == "" && r.requirements == "" && r.salary == "" && r.postedDate == ""
    ensures fetch(NormaliseUrl(url)).Some? ==>
      var page := fetch(NormaliseUrl(url)).value;
      r == EmptyJob.(title := Title(page), company := Company(page), location := Location(page, Title(page)),
                     description := Description(page))
  {
    match fetch(NormaliseUrl(url))
    case None => EmptyJob
    case Some(page) =>
      var title := Title(page);
      EmptyJob.(title := title, company := Company(page), location := Location(page, title),
                description := Description(page))
  }

  // ---------------------------------------------------------------------
  // What the heuristics guarantee

  /** Giving the scraper an already normalised URL changes nothing. */
  lemma ScrapeNormalisedSame(url: string, fetch: Fetcher)
    ensures Scrape(NormaliseUrl(url), fetch) == Scrape(url, fetch)
  {
    NormaliseUrlIdempotent(url);
  }

  /** A title taken from og:title holds no `|`. */
  lemma OgTitleHasNoBar(page: Page)
    requires OgTitle(page.ogTitle) != ""
    ensures Title(page) == OgTitle(page.ogTitle) && '|' !in Title(page)
  {
  }

  /** Every location found is shorter than 100 characters, and shorter than 30 when it
      comes from the title's parentheses. */
  lemma LocationShort(page: Page, title: string)
    ensures |Location(page, title)| < MaxLocationLength
    ensures FirstMatch(LocationSelectors, page.selectText, ShortLocation).None? ==>
      |Location(page, title)| < MaxParenLocationLength
  {
  }

  /** The location fallback never runs when a selector gave a non-empty location. */
  lemma SelectorLocationWins(page: Page, title: string, found: string)
    requires FirstMatch(LocationSelectors, page.selectText, ShortLocation) == Some(found)
    requires found != ""
    ensures Location(page, title) == found
  {
  }

  /** A description taken from a container is longer than 200 characters; one taken from a
      heading section joins at most 21 non-empty texts. */
  lemma {:induction false} DescriptionBounds(hs: seq<Heading>)
    ensures SectionDescription(hs).Some? ==>
      exists h :: h in hs && IsSectionHeading(h) && 0 < |Collect(h.following, [])| <= SiblingCap + 1 &&
        SectionDescription(hs) == Some(Join('\n', Collect(h.following, [])))
  {
    if hs != [] && !(IsSectionHeading(hs[0]) && Collect(hs[0].following, []) != []) {
      DescriptionBounds(hs[1..]);
    }
  }

  lemma ContainerDescriptionLong(page: Page)
    requires FirstMatch(DescriptionSelectors, page.selectBlock, LongDescription).Some?
    ensures |Description(page)| > MinDescriptionLength
  {
  }

  // ---------------------------------------------------------------------
  // The scraper as written: selector loops with `break`, and the sibling walk

  /** The selector loop: the first candidate that matches and passes `ok`. */
  method SelectFirst(sels: seq<string>, text: string -> Option<string>, ok: string -> bool)
    returns (found: Option<string>)
    ensures found == FirstMatch(sels, text, ok)
  {
    found := None;
    for i := 0 to |sels|
      invariant forall k :: 0 <= k < i ==> text(sels[k]).None? || !ok(text(sels[k]).value)
    {
      var element := text(sels[i]);
      if element.Some? && ok(element.value) {
        found := element;
        assert FindFirst(sels, (sel: string) => text(sel).Some? && ok(text(sel).value)) == Some(i);
        return;
      }
    }
  }

  /** The sibling walk after one heading. */
  method CollectSiblings(nodes: seq<Node>) returns (content: seq<string>)
    ensures content == Collect(nodes, [])
  {
    content := [];
    var k := 0;
    while k < |nodes|
      invariant 0 <= k <= |nodes|
      invariant Collect(nodes, []) == Collect(nodes[k..], content)
      invariant |content| <= SiblingCap
    {
      var node := nodes[k];
      assert nodes[k..][1..] == nodes[k + 1..];
      if node.name.Some? && node.name.value in SkippedNames {
        k := k + 1;
        continue;
      }
      if node.text != "" {
        content := content + [node.text];
      }
      k := k + 1;
      if |content| > SiblingCap {
        return;
      }
    }
  }

  /** The header fallback loop: headings in order, the first section yielding text wins. */
  method FindSectionDescription(hs: seq<Heading>) returns (found: Option<string>)
    ensures found == SectionDescription(hs)
  {
    found := None;
    for i := 0 to |hs|
      invariant SectionDescription(hs) == SectionDescription(hs[i..])
    {
      assert hs[i..][1..] == hs[i + 1..];
      if ContainsAny(Lower(hs[i].text), HeadingKeywords) {
        var content := CollectSiblings(hs[i].following);
        if content != [] {
          found := Some(Join('\n', content));
          return;
        }
      }
    }
  }

  /** The title step: og:title cut at `|`, else the first title selector that matches. */
  method FindTitle(page: Page) returns (title: string)
    ensures title == Title(page)
  {
    title := "";
    if page.ogTitle.Present? {
      title := OgTitle(page.ogTitle);
    }
    if title == "" {
      var t := SelectFirst(TitleSelectors, page.selectText, AnyText);
      if t.Some? {
        title := t.value;
      }
    }
  }

  /** The company step: og:site_name, else the first company selector that matches. */
  method FindCompany(page: Page) returns (company: string)
    ensures company == Company(page)
  {
    company := "";
    if page.ogSiteName.Present? {
      company := OgSiteName(page.ogSiteName);
    }
    if company == "" {
      var c := SelectFirst(CompanySelectors, page.selectText, AnyText);
      if c.Some? {
        company := c.value;
      }
    }
  }

  /** The location step: a short selector text, else a short parenthesised part of the title. */
  method FindLocation(page: Page, title: string) returns (location: string)
    ensures location == Location(page, title)
  {
    location := "";
    var loc := SelectFirst(LocationSelectors, page.selectText, ShortLocation);
    if loc.Some? {
      location := loc.value;
    }
    if location == "" && '(' in title {
      var group := ParenGroup(title);
      if group.Some? && |group.value| < MaxParenLocationLength {
        location := group.value;
      }
    }
  }

  /** The description step: a long container text, else the heading sections. */
  method FindDescription(page: Page) returns (description: string)
    ensures description == Description(page)
  {
    description := "";
    var desc := SelectFirst(DescriptionSelectors, page.selectBlock, LongDescription);
    if desc.Some? {
      description := desc.value;
    } else {
      var section := FindSectionDescription(page.headings);
      if section.Some? {
        description := section.value;
      }
    }
  }

  /** `scrape_job_details`: normalise the URL, fetch, then fill the fields in order. */
  method ScrapeJobDetails(url: string, fetch: Fetcher) returns (job: ScrapedJob)
    ensures job == Scrape(url, fetch)
  {
    var target := url;
    if !("http://" <= target || "https://" <= target) {
      target := "https://" + target;
    }
    var fetched := fetch(target);
    if fetched.None? {
      return EmptyJob;
    }
    var page := fetched.value;
    var title := FindTitle(page);
    var company := FindCompany(page);
    var location := FindLocation(page, title);
    var description := FindDescription(page);
    job := EmptyJob.(title := title, company := company, location := location, description := description);
  }
}
