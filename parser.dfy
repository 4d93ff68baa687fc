/**
 * The Parser object: its fields and the methods that update them, from discovering the
 * catalogue's structure to accumulating the savings of every product page.
 */
module Scraper {
  import opened Wrappers
  import opened PyText
  import opened Links
  import opened PyErrors
  import opened Extraction
  import opened Discovery

  /** The product pages served at the given links, in the same order. */
  function Fetched(fetch: string -> ProductPage, links: seq<string>): (pages: seq<ProductPage>)
    ensures |pages| == |links|
  {
    if links == [] then [] else [fetch(links[0])] + Fetched(fetch, links[1..])
  }

  /** Page i is the one served at link i. */
  lemma {:induction false} FetchedAt(fetch: string -> ProductPage, links: seq<string>, i: nat)
    requires i < |links|
    ensures Fetched(fetch, links)[i] == fetch(links[i])
  {
    if i > 0 {
      FetchedAt(fetch, links[1..], i - 1);
    }
  }

  /*
   * How a sequence of tasks that each parse their input stops at the first that raises.
   * These are stated for any parse function; gather instantiates them with ExtractFields.
   */

  /** parse succeeds on each of the first n elements of s. */
  predicate SucceedsUpTo<T, U, E>(parse: T -> Result<U, E>, s: seq<T>, n: nat)
    requires n <= |s|
  {
    forall k :: 0 <= k < n ==> parse(s[k]).Success?
  }

  /** The error of the first element that parse rejects, None when it accepts them all. */
  function FirstFailure<T, U, E>(parse: T -> Result<U, E>, s: seq<T>): Option<E>
  {
    if s == [] then None
    else
      match FirstFailure(parse, s[..|s| - 1])
      case Some(e) => Some(e)
      case None =>
        match parse(s[|s| - 1])
        case Failure(e) => Some(e)
        case Success(_) => None
  }

  /** The number of leading elements parse accepts: the index of the first it rejects, or |s|. */
  function LeadingSuccesses<T, U, E>(parse: T -> Result<U, E>, s: seq<T>): (n: nat)
    ensures n <= |s|
  {
    if s == [] then 0
    else
      var before := LeadingSuccesses(parse, s[..|s| - 1]);
      if before < |s| - 1 || parse(s[|s| - 1]).Failure? then before else |s|
  }

  /** FirstFailure and LeadingSuccesses of the first i + 1 elements, from those of the first i. */
  lemma FailureStep<T, U, E>(parse: T -> Result<U, E>, s: seq<T>, i: nat)
    requires i < |s|
    ensures FirstFailure(parse, s[..i + 1]) ==
            if FirstFailure(parse, s[..i]).Some? then FirstFailure(parse, s[..i])
            else if parse(s[i]).Failure? then Some(parse(s[i]).error)
            else None
    ensures LeadingSuccesses(parse, s[..i + 1]) ==
            if LeadingSuccesses(parse, s[..i]) < i || parse(s[i]).Failure? then LeadingSuccesses(parse, s[..i])
            else i + 1
  {
    assert s[..i + 1][..i] == s[..i];
  }

  /** Nothing is rejected exactly when every one of the first n elements is accepted. */
  lemma {:induction false} FirstFailureNone<T, U, E>(parse: T -> Result<U, E>, s: seq<T>, n: nat)
    requires n <= |s|
    ensures FirstFailure(parse, s[..n]).None? <==> SucceedsUpTo(parse, s, n)
  {
    if n > 0 {
      FirstFailureNone(parse, s, n - 1);
      FailureStep(parse, s, n - 1);
      assert SucceedsUpTo(parse, s, n) <==> SucceedsUpTo(parse, s, n - 1) && parse(s[n - 1]).Success?;
    }
  }

  /**
   * Over the first n elements, nothing is rejected exactly when all n are accepted; the
   * error, when there is one, is parse's error on the element at LeadingSuccesses.
   */
  lemma {:induction false} FirstFailureAt<T, U, E>(parse: T -> Result<U, E>, s: seq<T>, n: nat)
    requires n <= |s|
    ensures FirstFailure(parse, s[..n]).None? <==> LeadingSuccesses(parse, s[..n]) == n
    ensures FirstFailure(parse, s[..n]).Some? ==>
              LeadingSuccesses(parse, s[..n]) < n &&
              parse(s[LeadingSuccesses(parse, s[..n])]) == Failure(FirstFailure(parse, s[..n]).value)
  {
    if n > 0 {
      FirstFailureAt(parse, s, n - 1);
      FailureStep(parse, s, n - 1);
    }
  }

  /** The first LeadingSuccesses(parse, s[..n]) elements are all accepted. */
  lemma {:induction false} LeadingSucceed<T, U, E>(parse: T -> Result<U, E>, s: seq<T>, n: nat)
    requires n <= |s|
    ensures SucceedsUpTo(parse, s, LeadingSuccesses(parse, s[..n]))
  {
    if n > 0 {
      LeadingSucceed(parse, s, n - 1);
      FailureStep(parse, s, n - 1);
    }
  }

  /** Once a prefix has been rejected, a longer one fails with the same error at the same index. */
  lemma {:induction false} FailureExtend<T, U, E>(parse: T -> Result<U, E>, s: seq<T>, n: nat)
    requires n <= |s|
    requires FirstFailure(parse, s[..n]).Some?
    ensures FirstFailure(parse, s) == FirstFailure(parse, s[..n])
    ensures LeadingSuccesses(parse, s) == LeadingSuccesses(parse, s[..n])
    decreases |s| - n
  {
    if n == |s| {
      assert s[..n] == s;
    } else {
      FailureStep(parse, s, n);
      FirstFailureAt(parse, s, n);
      FailureExtend(parse, s, n + 1);
    }
  }

  /** The first n pages all parse, so get_result raises on none of them. */
  predicate ParsesUpTo(pages: seq<ProductPage>, n: nat)
    requires n <= |pages|
  {
    SucceedsUpTo(ExtractFields, pages, n)
  }

  /** Every page parses. */
  predicate AllParse(pages: seq<ProductPage>)
  {
    ParsesUpTo(pages, |pages|)
  }

  /**
   * The error gather raises when the tasks reach their parse in the order of pages:
   * that of the first page that does not parse, None when every page parses.
   */
  function FirstError(pages: seq<ProductPage>): Option<Error>
  {
    FirstFailure(ExtractFields, pages)
  }

  /**
   * How many pages run before gather raises: the number of leading pages that parse, that
   * is, the index of the first page that does not parse, or all of them.
   */
  function ParsedPrefix(pages: seq<ProductPage>): (n: nat)
    ensures n <= |pages|
  {
    LeadingSuccesses(ExtractFields, pages)
  }

  /** Total of the first i + 1 pages, from that of the first i pages. */
  lemma TotalStep(pages: seq<ProductPage>, i: nat)
    requires i < |pages|
    ensures Total(pages[..i + 1]) == Total(pages[..i]) + Delta(pages[i])
  {
    assert pages[..i + 1][..i] == pages[..i];
  }

  /** gather raises nothing exactly when every page parses. */
  lemma NoErrorIffAllParse(pages: seq<ProductPage>)
    ensures FirstError(pages).None? <==> AllParse(pages)
  {
    assert pages[..|pages|] == pages;
    FirstFailureNone(ExtractFields, pages, |pages|);
  }

  /**
   * How many pages gather runs, and what it raises: all pages parse exactly when it raises
   * nothing; otherwise it raises the error of page ParsedPrefix(pages), and every page before
   * that one parses.
   */
  lemma GatherStops(pages: seq<ProductPage>)
    ensures ParsesUpTo(pages, ParsedPrefix(pages))
    ensures FirstError(pages).None? <==> ParsedPrefix(pages) == |pages|
    ensures FirstError(pages).Some? ==>
              ParsedPrefix(pages) < |pages| &&
              ExtractFields(pages[ParsedPrefix(pages)]) == Failure(FirstError(pages).value)
  {
    assert pages[..|pages|] == pages;
    LeadingSucceed(ExtractFields, pages, |pages|);
    FirstFailureAt(ExtractFields, pages, |pages|);
  }

  /**
   * What gather does to result, from before to after, with outcome out: it raises exactly
   * when some page does not parse, then the error of the first such page; result grows by
   * the total of the pages that ran before it stopped.
   */
  predicate GatherOutcome(pages: seq<ProductPage>, out: Outcome<Error>, before: int, after: int)
  {
    (out.Pass? <==> FirstError(pages).None?) &&
    (out.Fail? ==> FirstError(pages) == Some(out.error)) &&
    after == before + Total(pages[..ParsedPrefix(pages)])
  }

  /**
   * A new parser that runs get_result on pages that all parse ends with result equal to
   * the sum of their contributions, and raises nothing.
   */
  method NewParserGather(domain: string, pages: seq<ProductPage>, fields: seq<Fields>)
    returns (p: Parser, out: Outcome<Error>)
    requires |fields| == |pages|
    requires forall i :: 0 <= i < |pages| ==> ExtractFields(pages[i]) == Success(fields[i])
    ensures out == Pass && p.result == SumContributions(fields)
  {
    p := new Parser(domain);
    out := p.Gather(pages);
    NoErrorIffAllParse(pages);
    GatherStops(pages);
    assert pages[..|pages|] == pages;
    TotalAllParsed(pages, fields);
  }

  class Parser {
    const domain: string
    var categories: seq<string>
    var links: seq<string>
    var totalPages: int
    var productsOnOnePage: int
    var result: int

    /** Parser(domain): no categories, no links, both counts and the result at 0. */
    constructor (domain: string)
      ensures this.domain == domain
      ensures categories == [] && links == []
      ensures totalPages == 0 && productsOnOnePage == 0 && result == 0
    {
      this.domain := domain;
      categories := [];
      links := [];
      totalPages := 0;
      productsOnOnePage := 0;
      result := 0;
    }

    /** Appends the ids of the category divs; when one raises, the list is left as it was. */
    method GetAllCategories(nav: Option<seq<Option<string>>>) returns (out: Outcome<Error>)
      modifies this`categories
      ensures CategoriesOf(nav).Success? ==> out == Pass && categories == old(categories) + CategoriesOf(nav).value
      ensures CategoriesOf(nav).Failure? ==> out == Fail(CategoriesOf(nav).error) && categories == old(categories)
    {
      match CategoriesOf(nav)
      case Failure(e) =>
        out := Fail(e);
      case Success(ids) =>
        categories := categories + ids;
        out := Pass;
    }

    /** Sets totalPages from the last pagination anchor; when that raises, totalPages is left as it was. */
    method GetTotalPages(anchors: Option<seq<string>>) returns (out: Outcome<Error>)
      modifies this`totalPages
      ensures TotalPagesOf(anchors).Success? ==> out == Pass && totalPages == TotalPagesOf(anchors).value
      ensures TotalPagesOf(anchors).Failure? ==> out == Fail(TotalPagesOf(anchors).error) && totalPages == old(totalPages)
    {
      match TotalPagesOf(anchors)
      case Failure(e) =>
        out := Fail(e);
      case Success(n) =>
        totalPages := n;
        out := Pass;
    }

    /** Sets productsOnOnePage to the number of item divs found. */
    method GetProductsOnOnePage<Item>(items: seq<Item>)
      modifies this`productsOnOnePage
      ensures productsOnOnePage == |items|
    {
      productsOnOnePage := |items|;
    }

    /**
     * Appends, category after category, the links of products 1 to
     * totalPages * productsOnOnePage; the links already there stay in front.
     */
    method GetAllLinks(categories: seq<string>, totalPages: int, productsOnOnePage: int)
      modifies this`links
      ensures links == old(links) + Enumerate(domain, categories, ProductCount(totalPages, productsOnOnePage), |categories|)
    {
      ghost var count := ProductCount(totalPages, productsOnOnePage);
      var cn: nat := 1;
      while cn <= |categories|
        invariant 1 <= cn <= |categories| + 1
        invariant links == old(links) + Enumerate(domain, categories, count, cn - 1)
      {
        ghost var before := links;
        var last := totalPages * productsOnOnePage;
        assert last <= 0 ==> count == 0;
        assert last > 0 ==> count == last;
        var productNum: nat := 1;
        while productNum <= last
          invariant 1 <= productNum <= count + 1
          invariant links == before + CategoryLinks(domain, categories, cn, productNum - 1)
        {
          ghost var done := CategoryLinks(domain, categories, cn, productNum - 1);
          links := links + [domain + categories[cn - 1] + "/" + NatToString(cn) + "/" + NatToString(cn)
                            + "_" + NatToString(productNum) + ".html"];
          CategoryLinksSnoc(domain, categories, cn, productNum);
          assert links == before + (done + [LinkFor(domain, categories, cn, productNum)]);
          productNum := productNum + 1;
        }
        assert productNum - 1 == count;
        assert links == old(links) + (Enumerate(domain, categories, count, cn - 1)
                                      + CategoryLinks(domain, categories, cn, count));
        cn := cn + 1;
      }
    }

    /**
     * Parses one product page and, only when all three fields parse, adds their
     * contribution to result; otherwise result is unchanged and the first error is raised.
     */
    method GetResult(page: ProductPage) returns (out: Outcome<Error>)
      modifies this`result
      ensures ExtractFields(page).Success? ==>
                out == Pass && result == old(result) + Contribution(ExtractFields(page).value)
      ensures ExtractFields(page).Failure? ==> out == Fail(ExtractFields(page).error) && result == old(result)
    {
      match ExtractFields(page)
      case Failure(e) =>
        out := Fail(e);
      case Success(f) =>
        result := result + Contribution(f);
        out := Pass;
    }

    /**
     * The get_result tasks, taken in the order in which they reach their parse; each update
     * of result is atomic. When every page parses, result grows by the total of the pages.
     * Otherwise the first page that does not parse raises, no later task is run, and result
     * holds the contributions of the pages before it.
     */
    method Gather(pages: seq<ProductPage>) returns (out: Outcome<Error>)
      modifies this`result
      ensures GatherOutcome(pages, out, old(result), result)
    {
      out := Pass;
      var i := 0;
      while i < |pages| && out.Pass?
        invariant 0 <= i <= |pages|
        invariant out.Pass? <==> FirstError(pages[..i]).None?
        invariant out.Fail? ==> FirstError(pages[..i]) == Some(out.error)
        invariant result == old(result) + Total(pages[..ParsedPrefix(pages[..i])])
      {
        FirstFailureAt(ExtractFields, pages, i);
        var o := GetResult(pages[i]);
        TotalStep(pages, i);
        FailureStep(ExtractFields, pages, i);
        if o.Fail? {
          out := o;
        }
        i := i + 1;
      }
      if out.Pass? {
        assert pages[..i] == pages;
      } else {
        FailureExtend(ExtractFields, pages, i);
      }
    }

    /** main(): get_result over the page behind every link, gathered. */
    method RunMain(fetch: string -> ProductPage) returns (out: Outcome<Error>)
      modifies this`result
      ensures GatherOutcome(Fetched(fetch, links), out, old(result), result)
    {
      out := Gather(Fetched(fetch, links));
    }

    /**
     * The discovery steps of parser(url): categories, page count, products per page, then
     * the product links. A failure raises before any link is added.
     */
    method Discover<Item>(nav: Option<seq<Option<string>>>, anchors: Option<seq<string>>, items: seq<Item>)
      returns (out: Outcome<Error>)
      modifies this`categories, this`totalPages, this`productsOnOnePage, this`links
      ensures CategoriesOf(nav).Failure? ==>
                out == Fail(CategoriesOf(nav).error) && categories == old(categories) &&
                totalPages == old(totalPages) && productsOnOnePage == old(productsOnOnePage) &&
                links == old(links)
      ensures CategoriesOf(nav).Success? ==> categories == old(categories) + CategoriesOf(nav).value
      ensures CategoriesOf(nav).Success? && TotalPagesOf(anchors).Failure? ==>
                out == Fail(TotalPagesOf(anchors).error) &&
                totalPages == old(totalPages) && productsOnOnePage == old(productsOnOnePage) &&
                links == old(links)
      ensures CategoriesOf(nav).Success? && TotalPagesOf(anchors).Success? ==>
                out == Pass && totalPages == TotalPagesOf(anchors).value && productsOnOnePage == |items| &&
                links == old(links) + Enumerate(domain, categories, ProductCount(totalPages, |items|), |categories|)
    {
      out := GetAllCategories(nav);
      if out.Fail? {
        return;
      }
      out := GetTotalPages(anchors);
      if out.Fail? {
        return;
      }
      GetProductsOnOnePage(items);
      GetAllLinks(categories, totalPages, productsOnOnePage);
    }

    /**
     * parser(url): discover the catalogue's structure, enumerate the product links,
     * then run get_result on the page behind every link. A discovery failure raises
     * before any link is added and before any page is fetched.
     */
    method Call<Item>(nav: Option<seq<Option<string>>>, anchors: Option<seq<string>>, items: seq<Item>,
                      fetch: string -> ProductPage) returns (out: Outcome<Error>)
      modifies this
      ensures CategoriesOf(nav).Failure? ==>
                out == Fail(CategoriesOf(nav).error) && categories == old(categories) &&
                totalPages == old(totalPages) && productsOnOnePage == old(productsOnOnePage) &&
                links == old(links) && result == old(result)
      ensures CategoriesOf(nav).Success? ==> categories == old(categories) + CategoriesOf(nav).value
      ensures CategoriesOf(nav).Success? && TotalPagesOf(anchors).Failure? ==>
                out == Fail(TotalPagesOf(anchors).error) &&
                totalPages == old(totalPages) && productsOnOnePage == old(productsOnOnePage) &&
                links == old(links) && result == old(result)
      ensures CategoriesOf(nav).Success? && TotalPagesOf(anchors).Success? ==>
                totalPages == TotalPagesOf(anchors).value && productsOnOnePage == |items| &&
                links == old(links) + Enumerate(domain, categories, ProductCount(totalPages, |items|), |categories|) &&
                GatherOutcome(Fetched(fetch, links), out, old(result), result)
    {
      out := Discover(nav, anchors, items);
      if out.Pass? {
        out := RunMain(fetch);
      }
    }
  }
}
