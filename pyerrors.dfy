/**
 * The Python exceptions the parser can raise, and int() with the ValueError it raises on
 * a text that is not a decimal literal.
 */
module PyErrors {
  import opened Wrappers
  import opened PyText

  /** The exceptions the parsing code can raise, by the Python exception they stand for. */
  datatype Error =
    | NoSuchElement(selector: string)   // find() returned None and .text was read from it: AttributeError
    | NoSuchAttribute(name: string)     // a tag without the attribute that was indexed: KeyError
    | IndexOutOfRange(what: string)     // [0] or [-1] of an empty list: IndexError
    | InvalidLiteral(text: string)      // int() refused its argument: ValueError

  /**
   * The whitespace int() skips around a literal: that of str.isspace() except the four
   * information separators U+001C to U+001F, which int() refuses although isspace() holds.
   */
  predicate IsIntSpace(c: char)
  {
    IsSpace(c) && !('\U{1C}' <= c <= '\U{1F}')
  }

  predicate AllIntSpace(s: string)
  {
    forall i :: 0 <= i < |s| ==> IsIntSpace(s[i])
  }

  /** s without the leading whitespace int() skips. */
  function IntLStrip(s: string): (r: string)
    ensures |r| <= |s|
  {
    if s != [] && IsIntSpace(s[0]) then IntLStrip(s[1..]) else s
  }

  /** s without the trailing whitespace int() skips. */
  function IntRStrip(s: string): (r: string)
    ensures |r| <= |s|
  {
    if s != [] && IsIntSpace(s[|s| - 1]) then IntRStrip(s[..|s| - 1]) else s
  }

  /** The text int() reads a literal from: s without int()'s whitespace at either end. */
  function IntStrip(s: string): (r: string)
    ensures |r| <= |s|
  {
    IntRStrip(IntLStrip(s))
  }

  lemma {:induction false} IntLStripSpaces(a: string, s: string)
    requires AllIntSpace(a)
    ensures IntLStrip(a + s) == IntLStrip(s)
  {
    if a == [] {
      assert a + s == s;
    } else {
      assert (a + s)[1..] == a[1..] + s;
      IntLStripSpaces(a[1..], s);
    }
  }

  lemma {:induction false} IntRStripSpaces(s: string, b: string)
    requires AllIntSpace(b)
    ensures IntRStrip(s + b) == IntRStrip(s)
  {
    if b == [] {
      assert s + b == s;
    } else {
      assert (s + b)[..|s + b| - 1] == s + b[..|b| - 1];
      IntRStripSpaces(s, b[..|b| - 1]);
    }
  }

  /** int() reads exactly the text between padding of its own whitespace. */
  lemma IntStripPadded(a: string, t: string, b: string)
    requires AllIntSpace(a) && AllIntSpace(b)
    requires t != [] && !IsIntSpace(t[0]) && !IsIntSpace(t[|t| - 1])
    ensures IntStrip(a + t + b) == t
  {
    assert a + t + b == a + (t + b);
    IntLStripSpaces(a, t + b);
    assert IntLStrip(t + b) == t + b;
    IntRStripSpaces(t, b);
  }

  /**
   * int(text) for literals [+-]?[0-9]+, after skipping int()'s whitespace at both ends;
   * anything else raises ValueError.
   */
  function IntOf(text: string): Result<int, Error>
  {
    match ParseInt(IntStrip(text))
    case Some(n) => Success(n)
    case None => Failure(InvalidLiteral(text))
  }

  /** int() accepts str(n) padded with the whitespace it skips. */
  lemma IntOfPadded(a: string, n: int, b: string)
    requires AllIntSpace(a) && AllIntSpace(b)
    ensures IntOf(a + IntToString(n) + b) == Success(n)
  {
    IntToStringChars(n);
    IntStripPadded(a, IntToString(n), b);
    ParseIntToString(n);
  }

  /** int(str(n)) == n. */
  lemma IntOfNumeral(n: int)
    ensures IntOf(IntToString(n)) == Success(n)
  {
    assert [] + IntToString(n) + [] == IntToString(n);
    IntOfPadded([], n, []);
  }

  /** An information separator is whitespace to strip() but not to int(), which raises. */
  lemma IntOfSeparator(n: int)
    ensures IsSpace('\U{1C}') && !IsIntSpace('\U{1C}')
    ensures IntOf("\U{1C}" + IntToString(n)).Failure?
  {
    var t := "\U{1C}" + IntToString(n);
    assert IntLStrip(t) == t;
    assert IntStrip(t)[0] == '\U{1C}';
  }
}
