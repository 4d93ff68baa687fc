/**
 * What Parser.get_all_categories and Parser.get_total_pages read from the catalogue's
 * root page, given what BeautifulSoup found there.
 */
module Discovery {
  import opened Wrappers
  import opened PyText
  import opened PyErrors

  const NavMenuSelector := "div.nav_menu"
  const PaginationSelector := "div.pagen"

  /**
   * [ctgy['id'] for ctgy in divs], where each div is given by its id attribute (None when
   * it has none): the ids in document order, or the KeyError of the first div without one.
   */
  function CategoryIds(divs: seq<Option<string>>): (r: Result<seq<string>, Error>)
    ensures r.Success? <==> forall i :: 0 <= i < |divs| ==> divs[i].Some?
    ensures r.Success? ==> |r.value| == |divs| && forall i :: 0 <= i < |divs| ==> r.value[i] == divs[i].value
    ensures r.Failure? ==> r.error == NoSuchAttribute("id")
  {
    if divs == [] then Success([])
    else
      match divs[0]
      case None => Failure(NoSuchAttribute("id"))
      case Some(id) =>
        match CategoryIds(divs[1..])
        case Failure(e) => Failure(e)
        case Success(rest) => Success([id] + rest)
  }

  /**
   * The category ids of get_all_categories: nav is the list of divs found inside
   * div.nav_menu, or None when the page has no such div (AttributeError).
   */
  function CategoriesOf(nav: Option<seq<Option<string>>>): Result<seq<string>, Error>
  {
    match nav
    case None => Failure(NoSuchElement(NavMenuSelector))
    case Some(divs) => CategoryIds(divs)
  }

  /**
   * int(soup.find('div', class_='pagen').find_all('a')[-1].text): anchors holds the texts
   * of the anchors inside div.pagen, or None when the page has no such div.
   */
  function TotalPagesOf(anchors: Option<seq<string>>): Result<int, Error>
  {
    match anchors
    case None => Failure(NoSuchElement(PaginationSelector))
    case Some(texts) => if texts == [] then Failure(IndexOutOfRange("find_all('a')")) else IntOf(Last(texts))
  }

  /** The page count is read from the last anchor alone, whatever the anchors before it say. */
  lemma TotalPagesOfLast(before: seq<string>, a: string, n: int, b: string)
    requires AllIntSpace(a) && AllIntSpace(b)
    ensures TotalPagesOf(Some(before + [a + IntToString(n) + b])) == Success(n)
  {
    IntOfPadded(a, n, b);
  }

  /**
   * Without div.pagen, reading find_all on None raises AttributeError; without anchors,
   * [-1] raises IndexError; a last anchor that is not a literal raises ValueError.
   */
  lemma TotalPagesOfErrors(before: seq<string>, last: string)
    ensures TotalPagesOf(None) == Failure(NoSuchElement(PaginationSelector))
    ensures TotalPagesOf(Some([])) == Failure(IndexOutOfRange("find_all('a')"))
    ensures TotalPagesOf(Some(before + [last])).Failure? <==> ParseInt(IntStrip(last)).None?
  {
    assert Last(before + [last]) == last;
  }

  /** A last anchor "\x1c4" raises ValueError: int() does not skip U+001C. */
  lemma TotalPagesOfSeparator()
    ensures TotalPagesOf(Some(["\U{1C}4"])) == Failure(InvalidLiteral("\U{1C}4"))
  {
    assert IntToString(4) == "4";
    IntOfSeparator(4);
    assert "\U{1C}" + IntToString(4) == "\U{1C}4";
  }
}
