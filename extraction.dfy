/**
 * What Parser.get_result reads from one product page and what it adds to the running
 * total: the old price, the current price and the stock, each parsed from the text of
 * its span, and the contribution (old_price - current_price) * stock.
 */
module Extraction {
  import opened Wrappers
  import opened PyText
  import opened PyErrors

  /**
   * The texts of the three spans of a product page, None where soup.find found no such span
   * (span#old_price, span#price, span#in_stock).
   */
  datatype ProductPage = ProductPage(oldPrice: Option<string>, price: Option<string>, inStock: Option<string>)

  datatype Fields = Fields(oldPrice: int, currentPrice: int, stock: int)

  const OldPriceSelector := "span#old_price"
  const PriceSelector := "span#price"
  const InStockSelector := "span#in_stock"

  /** int(span.text.split()[0]): the first whitespace-delimited token, as an integer. */
  function PriceOf(selector: string, text: Option<string>): Result<int, Error>
  {
    match text
    case None => Failure(NoSuchElement(selector))
    case Some(t) =>
      var tokens := Split(t);
      if tokens == [] then Failure(IndexOutOfRange("split()")) else IntOf(tokens[0])
  }

  /** int(span.text.split(':')[-1].strip()): what follows the last colon, stripped, as an integer. */
  function StockOf(text: Option<string>): Result<int, Error>
  {
    match text
    case None => Failure(NoSuchElement(InStockSelector))
    case Some(t) => IntOf(Strip(Last(SplitOn(t, ':'))))
  }

  /** Lines 50-55 of get_result: the three parses in source order; the first to raise decides the error. */
  function ExtractFields(page: ProductPage): Result<Fields, Error>
  {
    var oldPrice :- PriceOf(OldPriceSelector, page.oldPrice);
    var currentPrice :- PriceOf(PriceSelector, page.price);
    var stock :- StockOf(page.inStock);
    Success(Fields(oldPrice, currentPrice, stock))
  }

  /** What one product adds to the total; negative when the price went up, never clamped. */
  function Contribution(f: Fields): int
  {
    (f.oldPrice - f.currentPrice) * f.stock
  }

  /** How much get_result changes self.result for one page: nothing when a parse raises. */
  function Delta(page: ProductPage): int
  {
    match ExtractFields(page)
    case Success(f) => Contribution(f)
    case Failure(_) => 0
  }

  /** f summed over s, left to right. */
  function SumOf<T>(f: T -> int, s: seq<T>): int
  {
    if s == [] then 0 else SumOf(f, s[..|s| - 1]) + f(s[|s| - 1])
  }

  /** The change to self.result after get_result has run, in this order, on every page of pages. */
  function Total(pages: seq<ProductPage>): int
  {
    SumOf(Delta, pages)
  }

  /** The sum of the contributions of already extracted products. */
  function SumContributions(fields: seq<Fields>): int
  {
    SumOf(Contribution, fields)
  }

  // ---------------------------------------------------------------------------
  // Field extraction

  lemma FirstToken(lead: string, w: string, rest: string)
    requires AllSpace(lead) && IsToken(w)
    requires rest == [] || IsSpace(rest[0])
    ensures Split(lead + w + rest) != [] && Split(lead + w + rest)[0] == w
  {
    assert lead + w + rest == lead + (w + rest);
    SplitLeading(lead, w + rest);
    SplitWord(w, rest);
  }

  /** A price is read from the first token of its text alone. */
  lemma PriceOfFirst(selector: string, t: string, w: string)
    requires Split(t) != [] && Split(t)[0] == w
    ensures PriceOf(selector, Some(t)) == IntOf(w)
  {
  }

  /** A price text whose first token is str(n) ("100 руб") parses to n, whatever follows the token. */
  lemma PriceOfNumber(selector: string, lead: string, n: int, rest: string)
    requires AllSpace(lead)
    requires rest == [] || IsSpace(rest[0])
    ensures PriceOf(selector, Some(lead + IntToString(n) + rest)) == Success(n)
  {
    IntToStringChars(n);
    FirstToken(lead, IntToString(n), rest);
    PriceOfFirst(selector, lead + IntToString(n) + rest, IntToString(n));
    IntOfNumeral(n);
  }

  /** A price text raises IndexError exactly when it holds no token, that is, is all whitespace. */
  lemma PriceOfBlank(selector: string, t: string)
    ensures PriceOf(selector, Some(t)) == Failure(IndexOutOfRange("split()")) <==> AllSpace(t)
  {
    SplitBlank(t);
  }

  /** Whitespace padding adds no colon to a text without one. */
  lemma NoColonPadded(a: string, t: string, b: string)
    requires AllSpace(a) && AllSpace(b) && ':' !in t
    ensures ':' !in a + t + b
  {
    var u := a + t + b;
    forall i | 0 <= i < |u|
      ensures u[i] != ':'
    {
      if i < |a| {
        assert u[i] == a[i];
      } else if i < |a| + |t| {
        assert u[i] == t[i - |a|];
      } else {
        assert u[i] == b[i - |a| - |t|];
      }
    }
  }

  /** The stock is read from what follows the last colon alone. */
  lemma StockOfAfterColon(caption: string, tail: string)
    requires ':' !in tail
    ensures StockOf(Some(caption + ":" + tail)) == IntOf(Strip(tail))
  {
    assert caption + ":" + tail == caption + [':'] + tail;
    SplitOnLast(caption, ':', tail);
  }

  /** A stock text "caption: n", padded around n with whitespace ("in stock: 5"), parses to n. */
  lemma StockOfNumber(caption: string, a: string, n: int, b: string)
    requires AllSpace(a) && AllSpace(b)
    ensures StockOf(Some(caption + ":" + a + IntToString(n) + b)) == Success(n)
  {
    var s := IntToString(n);
    IntToStringChars(n);
    NoColonPadded(a, s, b);
    assert caption + ":" + a + s + b == caption + ":" + (a + s + b);
    StockOfAfterColon(caption, a + s + b);
    StripPadded(a, s, b);
    IntOfNumeral(n);
  }

  /** A stock text without a colon is parsed whole. */
  lemma StockOfNoColon(t: string)
    requires ':' !in t
    ensures StockOf(Some(t)) == IntOf(Strip(t))
  {
    SplitOnAbsent(t, ':');
  }

  /** A page whose three fields parse extracts them and adds their contribution. */
  lemma ExtractParsed(page: ProductPage, o: int, c: int, s: int)
    requires PriceOf(OldPriceSelector, page.oldPrice) == Success(o)
    requires PriceOf(PriceSelector, page.price) == Success(c)
    requires StockOf(page.inStock) == Success(s)
    ensures ExtractFields(page) == Success(Fields(o, c, s))
    ensures Delta(page) == Contribution(Fields(o, c, s))
  {
  }

  /** A price "n<unit>", the unit empty or starting with whitespace, parses to n. */
  lemma PriceOfUnit(selector: string, n: int, unit: string)
    requires unit == [] || IsSpace(unit[0])
    ensures PriceOf(selector, Some(IntToString(n) + unit)) == Success(n)
  {
    assert IntToString(n) + unit == [] + IntToString(n) + unit;
    PriceOfNumber(selector, [], n, unit);
  }

  /**
   * A page in the site's format, prices "o<unit>" and stock "<caption>:<pad>s", parses to
   * (o, c, s) and adds the contribution of those fields.
   */
  lemma ExtractWellFormed(o: int, c: int, s: int, unit: string, caption: string, pad: string)
    requires unit == [] || IsSpace(unit[0])
    requires AllSpace(pad)
    ensures ExtractFields(ProductPage(Some(IntToString(o) + unit), Some(IntToString(c) + unit),
                                      Some(caption + ":" + pad + IntToString(s)))) == Success(Fields(o, c, s))
    ensures Delta(ProductPage(Some(IntToString(o) + unit), Some(IntToString(c) + unit),
                              Some(caption + ":" + pad + IntToString(s)))) == Contribution(Fields(o, c, s))
  {
    var stockText := caption + ":" + pad + IntToString(s);
    PriceOfUnit(OldPriceSelector, o, unit);
    PriceOfUnit(PriceSelector, c, unit);
    assert stockText + [] == stockText;
    StockOfNumber(caption, pad, s, []);
    ExtractParsed(ProductPage(Some(IntToString(o) + unit), Some(IntToString(c) + unit), Some(stockText)), o, c, s);
  }

  /** The page "100 руб" / "80 руб" / "in stock: 5" gives (100, 80, 5) and adds 100. */
  lemma ExtractExample()
    ensures ExtractFields(ProductPage(Some("100 руб"), Some("80 руб"), Some("in stock: 5")))
            == Success(Fields(100, 80, 5))
    ensures Delta(ProductPage(Some("100 руб"), Some("80 руб"), Some("in stock: 5"))) == 100
  {
    assert IntToString(100) == "100" && IntToString(80) == "80" && IntToString(5) == "5";
    assert "100 руб" == IntToString(100) + " руб";
    assert "80 руб" == IntToString(80) + " руб";
    assert "in stock: 5" == "in stock" + ":" + " " + IntToString(5);
    ExtractWellFormed(100, 80, 5, " руб", "in stock", " ");
  }

  /** A price rise gives a negative contribution, added as it is: 50 / 70 / 3 adds -60. */
  lemma NegativeExample()
    ensures Delta(ProductPage(Some("50 руб"), Some("70 руб"), Some("in stock: 3"))) == -60
  {
    assert IntToString(50) == "50" && IntToString(70) == "70" && IntToString(3) == "3";
    assert "50 руб" == IntToString(50) + " руб";
    assert "70 руб" == IntToString(70) + " руб";
    assert "in stock: 3" == "in stock" + ":" + " " + IntToString(3);
    ExtractWellFormed(50, 70, 3, " руб", "in stock", " ");
  }

  // ---------------------------------------------------------------------------
  // The accumulated total

  lemma {:induction false} SumAppend<T>(f: T -> int, a: seq<T>, b: seq<T>)
    ensures SumOf(f, a + b) == SumOf(f, a) + SumOf(f, b)
    decreases |b|
  {
    if b == [] {
      assert a + b == a;
    } else {
      assert (a + b)[..|a + b| - 1] == a + b[..|b| - 1];
      SumAppend(f, a, b[..|b| - 1]);
    }
  }

  lemma SumSnoc<T>(f: T -> int, s: seq<T>, x: T)
    ensures SumOf(f, s + [x]) == SumOf(f, s) + f(x)
  {
    assert (s + [x])[..|s|] == s;
  }

  lemma SumRemove<T>(f: T -> int, b: seq<T>, k: nat)
    requires k < |b|
    ensures SumOf(f, b) == SumOf(f, b[..k] + b[k + 1..]) + f(b[k])
  {
    var left, x, right := b[..k], b[k], b[k + 1..];
    assert b == (left + [x]) + right;
    SumAppend(f, left + [x], right);
    SumSnoc(f, left, x);
    SumAppend(f, left, right);
  }

  lemma {:induction false} SumPermutation<T>(f: T -> int, a: seq<T>, b: seq<T>)
    requires multiset(a) == multiset(b)
    ensures SumOf(f, a) == SumOf(f, b)
    decreases |a|
  {
    if a != [] {
      var x := a[|a| - 1];
      var a' := a[..|a| - 1];
      assert a == a' + [x];
      assert x in multiset(b);
      var k :| 0 <= k < |b| && b[k] == x;
      var b' := b[..k] + b[k + 1..];
      assert b == b[..k] + [x] + b[k + 1..];
      assert multiset(a') == multiset(a) - multiset([x]);
      assert multiset(b') == multiset(b) - multiset([x]);
      SumPermutation(f, a', b');
      SumRemove(f, b, k);
    }
  }

  lemma {:induction false} SumConstant<T>(f: T -> int, s: seq<T>, c: int)
    requires forall i :: 0 <= i < |s| ==> f(s[i]) == c
    ensures SumOf(f, s) == |s| * c
    decreases |s|
  {
    if s != [] {
      SumConstant(f, s[..|s| - 1], c);
      assert (|s| - 1) * c + c == |s| * c;
    }
  }

  /** The total over two runs of pages is the sum of their totals. */
  lemma TotalAppend(a: seq<ProductPage>, b: seq<ProductPage>)
    ensures Total(a + b) == Total(a) + Total(b)
  {
    SumAppend(Delta, a, b);
  }

  /**
   * The order in which the tasks' updates land does not matter: any permutation of the
   * pages gives the same total.
   */
  lemma TotalPermutation(a: seq<ProductPage>, b: seq<ProductPage>)
    requires multiset(a) == multiset(b)
    ensures Total(a) == Total(b)
  {
    SumPermutation(Delta, a, b);
  }

  /** When every page parses, the total is the sum of the pages' contributions. */
  lemma {:induction false} TotalAllParsed(pages: seq<ProductPage>, fields: seq<Fields>)
    requires |fields| == |pages|
    requires forall i :: 0 <= i < |pages| ==> ExtractFields(pages[i]) == Success(fields[i])
    ensures Total(pages) == SumContributions(fields)
    decreases |pages|
  {
    if pages != [] {
      TotalAllParsed(pages[..|pages| - 1], fields[..|fields| - 1]);
    }
  }

  /** Pages that each add c add |pages| * c in all: no update is lost. */
  lemma TotalUniform(pages: seq<ProductPage>, c: int)
    requires forall i :: 0 <= i < |pages| ==> Delta(pages[i]) == c
    ensures Total(pages) == |pages| * c
  {
    SumConstant(Delta, pages, c);
  }
}
