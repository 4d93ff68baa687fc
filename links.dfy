/**
 * The product URLs that Parser.get_all_links enumerates: for every category number cn
 * (1-based, in the order of the category list) and every product number p from 1 to
 * total_pages * products_on_one_page, the link
 *     domain + categories[cn - 1] + "/" + str(cn) + "/" + str(cn) + "_" + str(p) + ".html".
 */
module Links {
  import opened PyText

  /** How many product numbers range(1, total_pages * products_on_one_page + 1) yields. */
  function ProductCount(totalPages: int, productsOnOnePage: int): (n: nat)
    ensures totalPages >= 0 && productsOnOnePage >= 0 ==> n == totalPages * productsOnOnePage
  {
    if totalPages * productsOnOnePage > 0 then totalPages * productsOnOnePage else 0
  }

  /** The link of product productNum of category cn (both 1-based). */
  function LinkFor(domain: string, categories: seq<string>, cn: nat, productNum: nat): string
    requires 1 <= cn <= |categories|
  {
    domain + categories[cn - 1] + "/" + NatToString(cn) + "/" + NatToString(cn) + "_" + NatToString(productNum) + ".html"
  }

  /** The links of products 1 to count of category cn, in order: product p at offset p - 1. */
  function CategoryLinks(domain: string, categories: seq<string>, cn: nat, count: nat): (r: seq<string>)
    requires 1 <= cn <= |categories|
    ensures |r| == count
  {
    seq(count, i requires 0 <= i < count => LinkFor(domain, categories, cn, i + 1))
  }

  /** The links of categories 1 to upTo, category after category, count products each. */
  function Enumerate(domain: string, categories: seq<string>, count: nat, upTo: nat): seq<string>
    requires upTo <= |categories|
  {
    if upTo == 0 then []
    else Enumerate(domain, categories, count, upTo - 1) + CategoryLinks(domain, categories, upTo, count)
  }

  /** The links of one more product of category cn are those of the ones before, then its own. */
  lemma CategoryLinksSnoc(domain: string, categories: seq<string>, cn: nat, p: nat)
    requires 1 <= cn <= |categories| && p >= 1
    ensures CategoryLinks(domain, categories, cn, p)
            == CategoryLinks(domain, categories, cn, p - 1) + [LinkFor(domain, categories, cn, p)]
  {
    var a, b := CategoryLinks(domain, categories, cn, p), CategoryLinks(domain, categories, cn, p - 1);
    assert forall i :: 0 <= i < p - 1 ==> a[i] == b[i];
  }

  /** upTo categories of count products give upTo * count links. */
  lemma {:induction false} EnumerateLength(domain: string, categories: seq<string>, count: nat, upTo: nat)
    requires upTo <= |categories|
    ensures |Enumerate(domain, categories, count, upTo)| == upTo * count
  {
    if upTo > 0 {
      EnumerateLength(domain, categories, count, upTo - 1);
      assert (upTo - 1) * count + count == upTo * count;
    }
  }

  /** Product p of category cn follows the links of the categories before cn. */
  lemma {:induction false} EnumerateAfter(domain: string, categories: seq<string>, count: nat, upTo: nat, cn: nat, p: nat)
    requires upTo <= |categories|
    requires 1 <= cn <= upTo && 1 <= p <= count
    ensures |Enumerate(domain, categories, count, cn - 1)| + (p - 1) < |Enumerate(domain, categories, count, upTo)|
    ensures Enumerate(domain, categories, count, upTo)[|Enumerate(domain, categories, count, cn - 1)| + (p - 1)]
            == LinkFor(domain, categories, cn, p)
  {
    var before := Enumerate(domain, categories, count, upTo - 1);
    var here := CategoryLinks(domain, categories, upTo, count);
    var offset := |Enumerate(domain, categories, count, cn - 1)| + (p - 1);
    if cn == upTo {
      assert (before + here)[offset] == here[p - 1];
    } else {
      EnumerateAfter(domain, categories, count, upTo - 1, cn, p);
      assert (before + here)[offset] == before[offset];
    }
  }

  /** The 0-based position of product p of category cn when each category has count products. */
  function Offset(cn: nat, p: nat, count: nat): nat
    requires cn >= 1 && p >= 1
  {
    (cn - 1) * count + (p - 1)
  }

  /**
   * Category-major order: product p of category cn sits at offset (cn - 1) * count + (p - 1).
   */
  lemma EnumerateAt(domain: string, categories: seq<string>, count: nat, upTo: nat, cn: nat, p: nat)
    requires upTo <= |categories|
    requires 1 <= cn <= upTo && 1 <= p <= count
    ensures Offset(cn, p, count) < |Enumerate(domain, categories, count, upTo)|
    ensures Enumerate(domain, categories, count, upTo)[Offset(cn, p, count)] == LinkFor(domain, categories, cn, p)
  {
    EnumerateLength(domain, categories, count, cn - 1);
    EnumerateAfter(domain, categories, count, upTo, cn, p);
  }

  lemma {:induction false} LastSegment(x: string, t: string, y: string, u: string)
    requires '/' !in t && '/' !in u
    requires x + "/" + t == y + "/" + u
    ensures t == u
  {
    SplitOnLast(x, '/', t);
    SplitOnLast(y, '/', u);
  }

  lemma {:induction false} FirstSegment(a: string, t: string, b: string, u: string)
    requires '_' !in a && '_' !in b
    requires a + "_" + t == b + "_" + u
    ensures a == b
  {
    SplitOnFirst(a, '_', t);
    SplitOnFirst(b, '_', u);
  }

  /** A link is its directory, a '/', and its file name str(cn) + "_" + str(productNum) + ".html". */
  lemma LinkForSplit(domain: string, categories: seq<string>, cn: nat, productNum: nat)
    requires 1 <= cn <= |categories|
    ensures LinkFor(domain, categories, cn, productNum)
            == (domain + categories[cn - 1] + "/" + NatToString(cn)) + "/" + FileName(cn, productNum)
    ensures '/' !in FileName(cn, productNum)
  {
    IntToStringChars(cn);
    IntToStringChars(productNum);
  }

  /** The file name of the link of product productNum of category cn. */
  function FileName(cn: nat, productNum: nat): string
  {
    NatToString(cn) + "_" + (NatToString(productNum) + ".html")
  }

  /** The two numbers can be read back from a file name. */
  lemma FileNameInjective(cn1: nat, p1: nat, cn2: nat, p2: nat)
    requires FileName(cn1, p1) == FileName(cn2, p2)
    ensures cn1 == cn2 && p1 == p2
  {
    var a1, b1 := NatToString(cn1), NatToString(p1);
    var a2, b2 := NatToString(cn2), NatToString(p2);
    IntToStringChars(cn1);
    IntToStringChars(cn2);
    FirstSegment(a1, b1 + ".html", a2, b2 + ".html");
    NatToStringInjective(cn1, cn2);
    assert FileName(cn1, p1)[|a1| + 1..] == b1 + ".html";
    assert FileName(cn2, p2)[|a2| + 1..] == b2 + ".html";
    assert b1 == (b1 + ".html")[..|b1|];
    assert b2 == (b2 + ".html")[..|b2|];
    NatToStringInjective(p1, p2);
  }

  /** The pair (cn, productNum) can be read back from its link, whatever the domain and the category ids. */
  lemma LinkForInjective(domain: string, categories: seq<string>, cn1: nat, p1: nat, cn2: nat, p2: nat)
    requires 1 <= cn1 <= |categories| && 1 <= cn2 <= |categories|
    requires LinkFor(domain, categories, cn1, p1) == LinkFor(domain, categories, cn2, p2)
    ensures cn1 == cn2 && p1 == p2
  {
    LinkForSplit(domain, categories, cn1, p1);
    LinkForSplit(domain, categories, cn2, p2);
    LastSegment(domain + categories[cn1 - 1] + "/" + NatToString(cn1), FileName(cn1, p1),
                domain + categories[cn2 - 1] + "/" + NatToString(cn2), FileName(cn2, p2));
    FileNameInjective(cn1, p1, cn2, p2);
  }

  /**
   * Every enumerated link is the link of some category cn and product p, found at the
   * offset EnumerateAfter gives for them.
   */
  lemma {:induction false} EnumerateLocate(domain: string, categories: seq<string>, count: nat, upTo: nat, i: nat)
    returns (cn: nat, p: nat)
    requires upTo <= |categories|
    requires i < |Enumerate(domain, categories, count, upTo)|
    ensures 1 <= cn <= upTo && 1 <= p <= count
    ensures i == |Enumerate(domain, categories, count, cn - 1)| + (p - 1)
    ensures Enumerate(domain, categories, count, upTo)[i] == LinkFor(domain, categories, cn, p)
  {
    var before := Enumerate(domain, categories, count, upTo - 1);
    var here := CategoryLinks(domain, categories, upTo, count);
    if i < |before| {
      cn, p := EnumerateLocate(domain, categories, count, upTo - 1, i);
      assert (before + here)[i] == before[i];
    } else {
      cn, p := upTo, i - |before| + 1;
      assert (before + here)[i] == here[p - 1];
    }
  }

  /** Every element of s occurs in it once. */
  predicate NoDuplicates(s: seq<string>)
  {
    forall i, j :: 0 <= i < |s| && 0 <= j < |s| && s[i] == s[j] ==> i == j
  }

  /** No product link is enumerated twice. */
  lemma EnumerateDistinct(domain: string, categories: seq<string>, count: nat)
    ensures NoDuplicates(Enumerate(domain, categories, count, |categories|))
  {
    var links := Enumerate(domain, categories, count, |categories|);
    forall i, j | 0 <= i < |links| && 0 <= j < |links| && links[i] == links[j]
      ensures i == j
    {
      var ci, pi := EnumerateLocate(domain, categories, count, |categories|, i);
      var cj, pj := EnumerateLocate(domain, categories, count, |categories|, j);
      LinkForInjective(domain, categories, ci, pi, cj, pj);
    }
  }
}
