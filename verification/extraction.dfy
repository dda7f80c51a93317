/**
 * What the pipeline draws from a fetched article: the excerpt, through the fallback
 * chain of description meta tags ending in a generated summary, and up to five
 * keywords, from the keywords meta tag or else from a ranked keyword extractor.
 *
 * HTML parsing, readability's main-content extraction, the TextRank summariser and
 * the RAKE extractor are not modelled: a `Page` carries what they return for one
 * fetched document.
 */
module Extraction {
  import opened Wrappers
  import opened Text

  /**
   * One `<meta>` element that has both a `name` and a `content` attribute. Every
   * query of the pipeline selects `@content` of the elements with a given name, so
   * elements without a content attribute never contribute and are not listed.
   */
  datatype MetaTag = MetaTag(name: string, content: string)

  /** A fetched document, as the libraries the pipeline calls see it. */
  datatype Page = Page(
    meta: seq<MetaTag>,     // the meta elements, in document order
    article: string,        // readability's extracted main content
    summary: string,        // the TextRank summary (top three sentences, concatenated)
    ranking: seq<string>)   // RAKE's candidate phrases, best score first

  /**
   * The xpath query `//meta[@name="<name>"]/@content`: the contents of the meta
   * elements called `name`, in document order.
   */
  function MetaContents(tags: seq<MetaTag>, name: string): (r: seq<string>)
    ensures |r| <= |tags|
  {
    if tags == [] then []
    else (if tags[0].name == name then [tags[0].content] else []) + MetaContents(tags[1..], name)
  }

  /** A content is in the xpath result exactly when an element with that name carries it. */
  lemma {:induction false} MetaContentsMembers(tags: seq<MetaTag>, name: string)
    ensures forall c :: c in MetaContents(tags, name) <==> MetaTag(name, c) in tags
    decreases |tags|
  {
    if tags != [] {
      MetaContentsMembers(tags[1..], name);
      assert tags == [tags[0]] + tags[1..];
    }
  }

  /**
   * The xpath result lists the matching elements in document order, one entry per
   * element: a single element contributes its content exactly when its name
   * matches, and the result for two runs of elements is the concatenation of
   * theirs.
   */
  lemma {:induction false} MetaContentsInOrder(a: seq<MetaTag>, b: seq<MetaTag>, name: string)
    ensures forall t :: MetaContents([t], name) == if t.name == name then [t.content] else []
    ensures MetaContents(a + b, name) == MetaContents(a, name) + MetaContents(b, name)
    decreases |a|
  {
    if a == [] {
      assert a + b == b;
    } else {
      assert (a + b)[0] == a[0] && (a + b)[1..] == a[1..] + b;
      MetaContentsInOrder(a[1..], b, name);
    }
  }

  /** The first entry of the xpath result is the content of the first element with that name. */
  lemma {:induction false} MetaContentsFirst(tags: seq<MetaTag>, name: string)
    requires MetaContents(tags, name) != []
    ensures exists i ::
      && 0 <= i < |tags| && tags[i].name == name
      && MetaContents(tags, name)[0] == tags[i].content
      && (forall j :: 0 <= j < i ==> tags[j].name != name)
    decreases |tags|
  {
    if tags[0].name != name {
      MetaContentsFirst(tags[1..], name);
      var i :| 0 <= i < |tags[1..]| && tags[1..][i].name == name &&
        MetaContents(tags[1..], name)[0] == tags[1..][i].content &&
        (forall j :: 0 <= j < i ==> tags[1..][j].name != name);
      assert tags[i + 1] == tags[1..][i];
      forall j | 0 <= j < i + 1
        ensures tags[j].name != name
      {
        if j > 0 {
          assert tags[j] == tags[1..][j - 1];
        }
      }
    }
  }

  /** The position of the first non-empty candidate; `|candidates|` when all are empty. */
  function FirstNonEmpty(candidates: seq<seq<string>>): (k: nat)
    ensures k <= |candidates|
    ensures forall j :: 0 <= j < k ==> candidates[j] == []
    ensures k < |candidates| ==> candidates[k] != []
  {
    if candidates == [] then 0
    else if candidates[0] != [] then 0
    else 1 + FirstNonEmpty(candidates[1..])
  }

  /** The description meta tags, in the order they are tried. */
  const DescriptionNames: seq<string> := ["description", "og:description", "twitter:description"]

  function DescriptionCandidates(tags: seq<MetaTag>): (c: seq<seq<string>>)
    ensures |c| == |DescriptionNames|
    ensures forall k :: 0 <= k < |c| ==> c[k] == MetaContents(tags, DescriptionNames[k])
  {
    [MetaContents(tags, DescriptionNames[0]),
     MetaContents(tags, DescriptionNames[1]),
     MetaContents(tags, DescriptionNames[2])]
  }

  /**
   * `get_meta_desc`: the contents of the `description` tags; if there are none, of
   * the `og:description` tags; if none, of the `twitter:description` tags. The
   * result is a list, and the chain stops at the first name that has any element
   * at all, even one whose content is the empty string.
   */
  function MetaDescription(tags: seq<MetaTag>): seq<string> {
    var desc := MetaContents(tags, "description");
    var desc := if desc == [] then MetaContents(tags, "og:description") else desc;
    if desc == [] then MetaContents(tags, "twitter:description") else desc
  }

  /** The nested fallbacks pick the first non-empty candidate list, or the empty list. */
  lemma MetaDescriptionChain(tags: seq<MetaTag>)
    ensures var cands := DescriptionCandidates(tags);
      var k := FirstNonEmpty(cands);
      MetaDescription(tags) == if k < |cands| then cands[k] else []
  {
  }

  /**
   * The excerpt `create_linkpost` puts in the front matter: the list found in the
   * meta tags, or else the generated summary.
   */
  datatype Excerpt = FromMeta(contents: seq<string>) | Generated(text: string)

  /**
   * The summariser is consulted exactly when none of the three description tags is
   * present; otherwise the excerpt is the first of them that is present, in the
   * order description, og:description, twitter:description.
   */
  function ResolveExcerpt(page: Page): Excerpt {
    var desc := MetaDescription(page.meta);
    if desc == [] then Generated(page.summary) else FromMeta(desc)
  }

  /**
   * The summariser is used exactly when no description tag is present; otherwise
   * the excerpt is the non-empty contents of the first tag name present.
   */
  lemma ExcerptSource(page: Page)
    ensures var e := ResolveExcerpt(page);
      (e.Generated? <==> forall k :: 0 <= k < |DescriptionNames| ==> MetaContents(page.meta, DescriptionNames[k]) == []) &&
      (e.Generated? ==> e.text == page.summary) &&
      (e.FromMeta? ==> e.contents != []) &&
      (e.FromMeta? ==>
        exists k :: 0 <= k < |DescriptionNames| && e.contents == MetaContents(page.meta, DescriptionNames[k]) &&
          forall j :: 0 <= j < k ==> MetaContents(page.meta, DescriptionNames[j]) == [])
  {
    MetaDescriptionChain(page.meta);
  }

  /**
   * The chain tests whether a tag name is present, not whether its content is
   * empty: a `description` tag with empty content wins over a non-empty
   * `og:description`, and the excerpt is then the list holding the empty string.
   */
  lemma EmptyDescriptionStopsChain()
    ensures ResolveExcerpt(Page([MetaTag("description", ""), MetaTag("og:description", "x")], "", "s", [])) == FromMeta([""])
  {
    var tags := [MetaTag("description", ""), MetaTag("og:description", "x")];
    assert MetaContents(tags, "description") == [""] by {
      assert tags[1..][1..] == [];
      assert "og:description" != "description";
    }
  }

  const MaxKeywords := 5

  /** The list comprehension `[x.strip(' ') for x in xs]`. */
  function StripAll(xs: seq<string>): seq<string> {
    seq(|xs|, k requires 0 <= k < |xs| => Strip(xs[k]))
  }

  datatype KeywordSource = KeywordsTag | Extractor

  /** The keywords of a page and where they came from. */
  datatype Keywords = Keywords(source: KeywordSource, words: seq<string>)

  /**
   * `get_doc_keywords` as its documentation describes it: the comma-separated
   * entries of the keywords meta tag, when there is one, else the top of the
   * extractor's ranking; at most five of them, each stripped of surrounding spaces.
   * The extractor is consulted only when the page has no keywords tag.
   */
  function DocKeywords(page: Page): (k: Keywords)
    ensures |k.words| <= MaxKeywords
    ensures forall i :: 0 <= i < |k.words| ==> Stripped(k.words[i])
    ensures k.source == KeywordsTag <==> MetaContents(page.meta, "keywords") != []
    ensures k.source == KeywordsTag ==>
      var entries := Split(MetaContents(page.meta, "keywords")[0], ',');
      |k.words| == (if |entries| < MaxKeywords then |entries| else MaxKeywords) &&
      forall i :: 0 <= i < |k.words| ==> k.words[i] == Strip(entries[i])
    ensures k.source == Extractor ==>
      |k.words| == (if |page.ranking| < MaxKeywords then |page.ranking| else MaxKeywords) &&
      forall i :: 0 <= i < |k.words| ==> k.words[i] == Strip(page.ranking[i])
  {
    var declared := MetaContents(page.meta, "keywords");
    if declared != [] then Keywords(KeywordsTag, StripAll(Take(Split(declared[0], ','), MaxKeywords)))
    else Keywords(Extractor, StripAll(Take(page.ranking, MaxKeywords)))
  }

  /** The error Python raises when a list is asked for a string method. */
  datatype PythonError = AttributeError(message: string)

  /**
   * `get_doc_keywords` as written: the xpath result is a list, and calling
   * `.split(',')` on it raises `AttributeError`, so every page that has a keywords
   * tag fails; the extractor branch is unaffected.
   */
  function KeywordsAsWritten(page: Page): Result<Keywords, PythonError> {
    var declared := MetaContents(page.meta, "keywords");
    if declared != [] then Err(AttributeError("'list' object has no attribute 'split'"))
    else Ok(Keywords(Extractor, StripAll(Take(page.ranking, MaxKeywords))))
  }

  /**
   * As written, the keyword step fails exactly on the pages that declare keywords,
   * and agrees with the documented behaviour on all others.
   */
  lemma KeywordsAsWrittenFailsOnKeywordsTag(page: Page)
    ensures KeywordsAsWritten(page).Err? <==> MetaContents(page.meta, "keywords") != []
    ensures KeywordsAsWritten(page).Ok? ==> KeywordsAsWritten(page).value == DocKeywords(page)
  {
  }

  /** The two entries of `"a, b".split(',')`. */
  lemma SplitExample()
    ensures Split("a, b", ',') == ["a", " b"]
  {
    assert "a, b" == "a" + [','] + " b";
    SplitAfterPiece("a", ',', " b");
    SplitWithoutSeparator(" b", ',');
  }

  /** `StripAll` on two entries strips each of them. */
  lemma StripAllPair(a: string, b: string)
    ensures StripAll([a, b]) == [Strip(a), Strip(b)]
  {
  }

  /** Stripping a one-letter entry, with or without a space before it, gives the letter. */
  lemma StripLetter(c: char)
    requires c != ' '
    ensures Strip([c]) == [c] && Strip([' ', c]) == [c]
  {
    StripKeepsStripped([c]);
    assert [' ', c] == [' '] + [c];
    StripLeadingSpace([c]);
  }

  /** Stripping those entries gives the two keywords. */
  lemma StripExample()
    ensures StripAll(["a", " b"]) == ["a", "b"]
  {
    StripAllPair("a", " b");
    StripLetter('a');
    StripLetter('b');
  }

  /** A page whose only meta tag is `<meta name="keywords" content="a, b">`. */
  lemma KeywordsTagCounterexample()
    ensures var page := Page([MetaTag("keywords", "a, b")], "", "", []);
      KeywordsAsWritten(page).Err? && DocKeywords(page).words == ["a", "b"]
  {
    var page := Page([MetaTag("keywords", "a, b")], "", "", []);
    assert MetaContents(page.meta, "keywords") == ["a, b"];
    SplitExample();
    assert Take(["a", " b"], MaxKeywords) == ["a", " b"];
    StripExample();
  }
}
