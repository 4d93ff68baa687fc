/**
 * The pieces of Python's text handling that the parser relies on: the whitespace of
 * str.isspace(), str.split() with no argument, str.strip(), str.split(sep) with a
 * one-character separator, int() on decimal literals and str() of an integer.
 */
module PyText {
  import opened Wrappers

  /** The characters for which Python's str.isspace() holds. */
  predicate IsSpace(c: char)
  {
    ('\t' <= c <= '\r') || ('\U{1C}' <= c <= ' ') || c == '\U{85}' || c == '\U{A0}'
    || c == '\U{1680}' || ('\U{2000}' <= c <= '\U{200A}') || c == '\U{2028}' || c == '\U{2029}'
    || c == '\U{202F}' || c == '\U{205F}' || c == '\U{3000}'
  }

  predicate AllSpace(s: string)
  {
    forall i :: 0 <= i < |s| ==> IsSpace(s[i])
  }

  predicate NoSpace(s: string)
  {
    forall i :: 0 <= i < |s| ==> !IsSpace(s[i])
  }

  /** A token of str.split(): non-empty and free of whitespace. */
  predicate IsToken(w: string)
  {
    w != [] && NoSpace(w)
  }

  function Last<T>(s: seq<T>): T
    requires |s| > 0
  {
    s[|s| - 1]
  }

  /** Joins pieces with a separator between consecutive ones, as Python's sep.join(pieces). */
  function Join(pieces: seq<string>, sep: string): string
  {
    if pieces == [] then []
    else if |pieces| == 1 then pieces[0]
    else pieces[0] + sep + Join(pieces[1..], sep)
  }

  // ---------------------------------------------------------------------------
  // str.lstrip(), str.rstrip(), str.strip()

  /** s without its leading whitespace: the result is a suffix of s, what was dropped is all whitespace. */
  function LStrip(s: string): (r: string)
    ensures |r| <= |s| && r == s[|s| - |r|..]
    ensures forall i :: 0 <= i < |s| - |r| ==> IsSpace(s[i])
    ensures r == [] || !IsSpace(r[0])
  {
    if s != [] && IsSpace(s[0]) then LStrip(s[1..]) else s
  }

  /** s without its trailing whitespace: the result is a prefix of s, what was dropped is all whitespace. */
  function RStrip(s: string): (r: string)
    ensures |r| <= |s| && r == s[..|r|]
    ensures forall i :: |r| <= i < |s| ==> IsSpace(s[i])
    ensures r == [] || !IsSpace(r[|r| - 1])
  {
    if s != [] && IsSpace(s[|s| - 1]) then RStrip(s[..|s| - 1]) else s
  }

  /** Python's s.strip(): neither end of the result is whitespace. */
  function Strip(s: string): (r: string)
    ensures |r| <= |s|
    ensures r == [] || (!IsSpace(r[0]) && !IsSpace(r[|r| - 1]))
  {
    RStrip(LStrip(s))
  }

  lemma {:induction false} LStripSpaces(a: string, s: string)
    requires AllSpace(a)
    ensures LStrip(a + s) == LStrip(s)
  {
    if a == [] {
      assert a + s == s;
    } else {
      assert (a + s)[1..] == a[1..] + s;
      LStripSpaces(a[1..], s);
    }
  }

  lemma {:induction false} RStripSpaces(s: string, b: string)
    requires AllSpace(b)
    ensures RStrip(s + b) == RStrip(s)
  {
    if b == [] {
      assert s + b == s;
    } else {
      assert (s + b)[..|s + b| - 1] == s + b[..|b| - 1];
      RStripSpaces(s, b[..|b| - 1]);
    }
  }

  /** Stripping recovers the text between any whitespace padding: strip() inverts padding. */
  lemma StripPadded(a: string, t: string, b: string)
    requires AllSpace(a) && AllSpace(b)
    requires t == [] || (!IsSpace(t[0]) && !IsSpace(t[|t| - 1]))
    ensures Strip(a + t + b) == t
  {
    assert a + t + b == a + (t + b);
    LStripSpaces(a, t + b);
    if t == [] {
      assert t + b == b + [];
      LStripSpaces(b, []);
    } else {
      assert LStrip(t + b) == t + b;
      RStripSpaces(t, b);
    }
  }

  /** str.strip() is idempotent. */
  lemma StripIdempotent(s: string)
    ensures Strip(Strip(s)) == Strip(s)
  {
    var r := Strip(s);
    assert LStrip(r) == r;
    assert RStrip(r) == r;
  }

  // ---------------------------------------------------------------------------
  // str.split() with no argument

  /** The longest prefix of s without whitespace. */
  function Word(s: string): (r: string)
    ensures |r| <= |s| && r == s[..|r|] && NoSpace(r)
    ensures |r| == |s| || IsSpace(s[|r|])
    ensures s != [] && !IsSpace(s[0]) ==> r != []
  {
    if s == [] || IsSpace(s[0]) then [] else [s[0]] + Word(s[1..])
  }

  /** Python's s.split(): the maximal runs of non-whitespace characters of s, in order. */
  function Split(s: string): seq<string>
    decreases |s|
  {
    var t := LStrip(s);
    if t == [] then []
    else
      var w := Word(t);
      [w] + Split(t[|w|..])
  }

  /** Every piece str.split() returns is a token. */
  lemma {:induction false} SplitTokens(s: string)
    ensures forall k :: 0 <= k < |Split(s)| ==> IsToken(Split(s)[k])
    decreases |s|
  {
    var t := LStrip(s);
    if t != [] {
      var w := Word(t);
      SplitTokens(t[|w|..]);
      TokensCons(w, Split(t[|w|..]));
    }
  }

  lemma TokensCons(w: string, ws: seq<string>)
    requires IsToken(w)
    requires forall k :: 0 <= k < |ws| ==> IsToken(ws[k])
    ensures forall k :: 0 <= k < |[w] + ws| ==> IsToken(([w] + ws)[k])
  {
  }

  /** split() finds no token exactly in a text that is all whitespace. */
  lemma SplitBlank(s: string)
    ensures Split(s) == [] <==> AllSpace(s)
  {
    var t := LStrip(s);
  }

  lemma {:induction false} WordPrefix(w: string, rest: string)
    requires NoSpace(w)
    requires rest == [] || IsSpace(rest[0])
    ensures Word(w + rest) == w
  {
    if w != [] {
      assert (w + rest)[1..] == w[1..] + rest;
      WordPrefix(w[1..], rest);
    }
  }

  /** A leading word that ends at whitespace or at the end of the text is the first token. */
  lemma SplitWord(w: string, rest: string)
    requires w != [] && NoSpace(w)
    requires rest == [] || IsSpace(rest[0])
    ensures Split(w + rest) == [w] + Split(rest)
  {
    assert LStrip(w + rest) == w + rest;
    WordPrefix(w, rest);
    assert (w + rest)[|w|..] == rest;
  }

  /** Leading whitespace does not change the tokens. */
  lemma SplitLeading(a: string, s: string)
    requires AllSpace(a)
    ensures Split(a + s) == Split(s)
  {
    LStripSpaces(a, s);
  }

  /** A token followed by a space is the first token, and the rest is split on its own. */
  lemma SplitSpaced(w: string, rest: string)
    requires IsToken(w)
    ensures Split(w + " " + rest) == [w] + Split(rest)
  {
    assert w + " " + rest == w + (" " + rest);
    SplitWord(w, " " + rest);
    SplitLeading(" ", rest);
  }

  lemma SplitSingle(w: string)
    requires IsToken(w)
    ensures Split(w) == [w]
  {
    SplitWord(w, []);
    assert w + [] == w;
  }

  lemma TokensTail(words: seq<string>)
    requires words != []
    requires forall k :: 0 <= k < |words| ==> IsToken(words[k])
    ensures IsToken(words[0])
    ensures forall k :: 0 <= k < |words[1..]| ==> IsToken(words[1..][k])
  {
  }

  /** split() inverts joining tokens with single spaces. */
  lemma {:induction false} SplitJoin(words: seq<string>)
    requires forall k :: 0 <= k < |words| ==> IsToken(words[k])
    ensures Split(Join(words, " ")) == words
  {
    if words != [] {
      TokensTail(words);
      var w, rest := words[0], words[1..];
      if rest == [] {
        SplitSingle(w);
        assert words == [w];
      } else {
        assert Join(words, " ") == w + " " + Join(rest, " ");
        SplitSpaced(w, Join(rest, " "));
        SplitJoin(rest);
        assert words == [w] + rest;
      }
    }
  }

  // ---------------------------------------------------------------------------
  // str.split(sep) with a one-character separator

  /** Python's s.split(sep): the pieces between occurrences of sep; there is always at least one. */
  function SplitOn(s: string, sep: char): (r: seq<string>)
    ensures |r| >= 1
    ensures forall k :: 0 <= k < |r| ==> sep !in r[k]
  {
    if s == [] then [[]]
    else
      var rest := SplitOn(s[1..], sep);
      if s[0] == sep then [[]] + rest else [[s[0]] + rest[0]] + rest[1..]
  }

  /** Joining the pieces with the separator gives back the text. */
  lemma {:induction false} JoinSplitOn(s: string, sep: char)
    ensures Join(SplitOn(s, sep), [sep]) == s
  {
    if s != [] {
      var rest := SplitOn(s[1..], sep);
      JoinSplitOn(s[1..], sep);
      if s[0] == sep {
        assert ([[]] + rest)[1..] == rest;
      } else if |rest| > 1 {
        var r := [[s[0]] + rest[0]] + rest[1..];
        assert r[1..] == rest[1..];
        assert Join(rest, [sep]) == rest[0] + [sep] + Join(rest[1..], [sep]);
      }
      assert s == [s[0]] + s[1..];
    }
  }

  /** A text without the separator is one piece. */
  lemma {:induction false} SplitOnAbsent(s: string, sep: char)
    requires sep !in s
    ensures SplitOn(s, sep) == [s]
  {
    if s != [] {
      SplitOnAbsent(s[1..], sep);
      assert s == [s[0]] + s[1..];
    }
  }

  /** The last piece is what follows the last separator. */
  lemma {:induction false} SplitOnLast(p: string, sep: char, t: string)
    requires sep !in t
    ensures |SplitOn(p + [sep] + t, sep)| >= 2
    ensures Last(SplitOn(p + [sep] + t, sep)) == t
  {
    var s := p + [sep] + t;
    if p == [] {
      assert s[1..] == t;
      SplitOnAbsent(t, sep);
    } else {
      assert s[1..] == p[1..] + [sep] + t;
      SplitOnLast(p[1..], sep, t);
    }
  }

  /** The first piece is what precedes the first separator. */
  lemma {:induction false} SplitOnFirst(a: string, sep: char, t: string)
    requires sep !in a
    ensures SplitOn(a + [sep] + t, sep)[0] == a
  {
    var s := a + [sep] + t;
    if a != [] {
      assert s[1..] == a[1..] + [sep] + t;
      SplitOnFirst(a[1..], sep, t);
      assert a == [a[0]] + a[1..];
    }
  }

  // ---------------------------------------------------------------------------
  // str() of an integer and int() of a decimal literal

  predicate IsDigit(c: char)
  {
    '0' <= c <= '9'
  }

  predicate IsNumeral(s: string)
  {
    |s| > 0 && forall i :: 0 <= i < |s| ==> IsDigit(s[i])
  }

  function DigitChar(d: nat): (c: char)
    requires d < 10
    ensures IsDigit(c) && DigitValue(c) == d
  {
    ('0' as int + d) as char
  }

  function DigitValue(c: char): nat
    requires IsDigit(c)
  {
    c as int - '0' as int
  }

  /** The value of a string of decimal digits, most significant first. */
  function DigitsValue(s: string): nat
    requires forall i :: 0 <= i < |s| ==> IsDigit(s[i])
  {
    if s == [] then 0 else DigitsValue(s[..|s| - 1]) * 10 + DigitValue(s[|s| - 1])
  }

  /** Python's str(n) for n >= 0: its decimal digits, without leading zeros. */
  function NatToString(n: nat): (r: string)
    ensures IsNumeral(r)
    ensures r[0] == '0' ==> n == 0 && r == "0"
  {
    if n < 10 then [DigitChar(n)] else NatToString(n / 10) + [DigitChar(n % 10)]
  }

  /** Python's str(n). */
  function IntToString(n: int): string
  {
    if n < 0 then "-" + NatToString(-n) else NatToString(n)
  }

  /** Python's int(s) restricted to the literals [+-]?[0-9]+ (no surrounding whitespace). */
  function ParseInt(s: string): Option<int>
  {
    if |s| > 0 && (s[0] == '+' || s[0] == '-') then
      if IsNumeral(s[1..]) then
        var v: int := DigitsValue(s[1..]);
        Some(if s[0] == '-' then -v else v)
      else None
    else if IsNumeral(s) then Some(DigitsValue(s))
    else None
  }

  /** Reading back the digits of str(n) gives n. */
  lemma {:induction false} NatToStringValue(n: nat)
    ensures DigitsValue(NatToString(n)) == n
  {
    if n >= 10 {
      var s := NatToString(n);
      assert s[..|s| - 1] == NatToString(n / 10);
      NatToStringValue(n / 10);
    }
  }

  /** str() is injective on non-negative integers. */
  lemma NatToStringInjective(m: nat, n: nat)
    requires NatToString(m) == NatToString(n)
    ensures m == n
  {
    NatToStringValue(m);
    NatToStringValue(n);
  }

  /** int(str(n)) == n. */
  lemma ParseIntToString(n: int)
    ensures ParseInt(IntToString(n)) == Some(n)
  {
    if n < 0 {
      var s := IntToString(n);
      assert s[1..] == NatToString(-n);
      NatToStringValue(-n);
    } else {
      NatToStringValue(n);
    }
  }

  /** str(n) is a single token: non-empty, no whitespace, and no ':', '/' or '_'. */
  lemma IntToStringChars(n: int)
    ensures IntToString(n) != [] && NoSpace(IntToString(n))
    ensures ':' !in IntToString(n) && '/' !in IntToString(n) && '_' !in IntToString(n)
  {
    var s := IntToString(n);
    if n < 0 {
      assert forall i :: 1 <= i < |s| ==> s[i] == NatToString(-n)[i - 1];
    }
  }
}
