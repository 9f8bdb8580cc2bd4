/** Text helpers shared by the chord learning-set parser and the note-shifting
    utility: splitting with `std::getline` semantics, reading an integer the way
    `std::stoi` does, printing a natural number in decimal, and joining with a
    separator. */
module Tokens {

  /** The fields of s between occurrences of t, as a plain split sees them:
      k delimiters give k + 1 fields (some possibly empty). */
  function Fields(s: string, t: char): (r: seq<string>)
    ensures |r| > 0
    decreases |s|
  {
    if s == [] then [""]
    else
      var f := Fields(s[..|s| - 1], t);
      if s[|s| - 1] == t then f + [""]
      else f[..|f| - 1] + [f[|f| - 1] + [s[|s| - 1]]]
  }

  /** What a `while (getline(ss, item, t)) result.push_back(item)` loop collects:
      every field, except that a last field that is empty is not produced
      (getline fails when it extracts nothing at the end of the stream). */
  function Items(s: string, t: char): seq<string>
  {
    var f := Fields(s, t);
    if f[|f| - 1] == "" then f[..|f| - 1] else f
  }

  /** The items joined back with single separators t. */
  function Join(xs: seq<string>, t: char): string
    decreases |xs|
  {
    if xs == [] then ""
    else if |xs| == 1 then xs[0]
    else Join(xs[..|xs| - 1], t) + [t] + xs[|xs| - 1]
  }

  /** `split`: a getline loop over a string stream, pushing every item read. */
  method Split(s: string, t: char) returns (result: seq<string>)
    ensures result == Items(s, t)
  {
    result := [];
    var item := "";
    var i := 0;
    while i < |s|
      invariant 0 <= i <= |s|
      invariant result + [item] == Fields(s[..i], t)
    {
      assert s[..i + 1][..i] == s[..i];
      if s[i] == t {
        result := result + [item];
        item := "";
      } else {
        item := item + [s[i]];
      }
      i := i + 1;
    }
    assert s[..|s|] == s;
    if item != "" {
      result := result + [item];
    }
  }

  // ---------------------------------------------------------------------------
  // Properties of Fields and Items

  lemma {:induction false} FieldsFree(s: string, t: char)
    ensures forall k :: 0 <= k < |Fields(s, t)| ==> t !in Fields(s, t)[k]
    decreases |s|
  {
    if s != [] {
      FieldsFree(s[..|s| - 1], t);
    }
  }

  lemma {:induction false} FieldsJoin(s: string, t: char)
    ensures Join(Fields(s, t), t) == s
    decreases |s|
  {
    if s != [] {
      var p := s[..|s| - 1];
      var f := Fields(p, t);
      FieldsJoin(p, t);
      assert s == p + [s[|s| - 1]];
      if s[|s| - 1] == t {
        assert (f + [""])[..|f|] == f;
      } else {
        var g := f[..|f| - 1] + [f[|f| - 1] + [s[|s| - 1]]];
        assert g[..|g| - 1] == f[..|f| - 1];
        if |f| == 1 {
        } else {
          assert Join(f, t) == Join(f[..|f| - 1], t) + [t] + f[|f| - 1];
        }
      }
    }
  }

  /** The last field is empty exactly when s is empty or ends with t. */
  lemma LastFieldEmpty(s: string, t: char)
    ensures var f := Fields(s, t); f[|f| - 1] == "" <==> (s == [] || s[|s| - 1] == t)
  {
  }

  /** The items of s never contain the delimiter. */
  lemma ItemsFree(s: string, t: char)
    ensures forall k :: 0 <= k < |Items(s, t)| ==> t !in Items(s, t)[k]
  {
    FieldsFree(s, t);
  }

  /** Joining the items with t gives s back, up to a single trailing t. */
  lemma ItemsJoin(s: string, t: char)
    ensures s == Join(Items(s, t), t) + (if s != [] && s[|s| - 1] == t then [t] else [])
  {
    var f := Fields(s, t);
    FieldsJoin(s, t);
    LastFieldEmpty(s, t);
    if f[|f| - 1] == "" {
      if |f| == 1 {
        assert Items(s, t) == [];
      } else {
        assert f == f[..|f| - 1] + [""];
        assert Join(f, t) == Join(f[..|f| - 1], t) + [t];
      }
    }
  }

  /** Only the empty string has no items. */
  lemma ItemsNonEmpty(s: string, t: char)
    ensures Items(s, t) == [] <==> s == []
  {
    if Items(s, t) == [] {
      ItemsJoin(s, t);
      LastFieldEmpty(s, t);
    }
  }

  lemma {:induction false} FieldsOfFree(x: string, t: char)
    requires t !in x
    ensures Fields(x, t) == [x]
    decreases |x|
  {
    if x != [] {
      FieldsOfFree(x[..|x| - 1], t);
      assert x == x[..|x| - 1] + [x[|x| - 1]];
    }
  }

  lemma {:induction false} FieldsAppend(a: string, t: char, x: string)
    requires t !in x
    ensures Fields(a + [t] + x, t) == Fields(a, t) + [x]
    decreases |x|
  {
    if x == [] {
      assert a + [t] + x == a + [t];
      assert (a + [t])[..|a|] == a;
    } else {
      var y := x[..|x| - 1];
      FieldsAppend(a, t, y);
      var s := a + [t] + x;
      assert s[..|s| - 1] == a + [t] + y;
      assert x == y + [x[|x| - 1]];
      var f := Fields(a, t) + [y];
      assert f[..|f| - 1] == Fields(a, t);
    }
  }

  /** Splitting a join of delimiter-free strings gives them back as fields. */
  lemma {:induction false} FieldsOfJoin(xs: seq<string>, t: char)
    requires xs != []
    requires forall k :: 0 <= k < |xs| ==> t !in xs[k]
    ensures Fields(Join(xs, t), t) == xs
    decreases |xs|
  {
    if |xs| == 1 {
      FieldsOfFree(xs[0], t);
    } else {
      var ys := xs[..|xs| - 1];
      FieldsOfJoin(ys, t);
      FieldsAppend(Join(ys, t), t, xs[|xs| - 1]);
      assert ys + [xs[|xs| - 1]] == xs;
    }
  }

  /** `split` undoes a join of delimiter-free strings whose last one is non-empty:
      the inverse direction of ItemsJoin. */
  lemma ItemsOfJoin(xs: seq<string>, t: char)
    requires forall k :: 0 <= k < |xs| ==> t !in xs[k]
    requires xs == [] || xs[|xs| - 1] != ""
    ensures Items(Join(xs, t), t) == xs
  {
    if xs != [] {
      FieldsOfJoin(xs, t);
    }
  }

  /** One step of Fields: appending a character to s. */
  lemma FieldsSnoc(p: string, c: char, t: char)
    ensures var f := Fields(p, t);
      Fields(p + [c], t) == if c == t then f + [""] else f[..|f| - 1] + [f[|f| - 1] + [c]]
  {
    assert (p + [c])[..|p|] == p;
  }

  /** Splitting `x t y` where x holds no t: x is the first field, and the
      fields of y follow. */
  lemma {:induction false} FieldsAfterFree(x: string, t: char, y: string)
    requires t !in x
    ensures Fields(x + [t] + y, t) == [x] + Fields(y, t)
    decreases |y|
  {
    if y == [] {
      FieldsOfFree(x, t);
      FieldsSnoc(x, t, t);
      assert x + [t] + y == x + [t];
    } else {
      var q := y[..|y| - 1];
      var c := y[|y| - 1];
      assert y == q + [c];
      assert x + [t] + y == (x + [t] + q) + [c];
      FieldsAfterFree(x, t, q);
      FieldsSnoc(x + [t] + q, c, t);
      FieldsSnoc(q, c, t);
      PrependExtendLast(x, Fields(q, t), c);
    }
  }

  lemma PrependExtendLast(x: string, f: seq<string>, c: char)
    requires |f| > 0
    ensures var g := [x] + f;
      g[..|g| - 1] + [g[|g| - 1] + [c]] == [x] + (f[..|f| - 1] + [f[|f| - 1] + [c]])
      && g + [""] == [x] + (f + [""])
  {
    var g := [x] + f;
    assert g[..|g| - 1] == [x] + f[..|f| - 1];
  }

  /** A leading delimiter produces a leading empty item. */
  lemma LeadingDelimiter(s: string, t: char)
    requires s != [] && s[0] == t
    ensures |Items(s, t)| > 0 && Items(s, t)[0] == ""
  {
    assert s == [t] + s[1..];
    FieldsAfterFree([], t, s[1..]);
    assert [] + [t] + s[1..] == s;
  }

  // ---------------------------------------------------------------------------
  // Integers in text

  predicate IsDigit(c: char) { '0' <= c <= '9' }

  predicate IsSpace(c: char)
  {
    c == ' ' || c == '\t' || c == '\n' || c == '\r' || c as int == 11 || c as int == 12
  }

  function DigitValue(c: char): (d: nat)
    requires IsDigit(c)
    ensures d < 10
  {
    c as int - '0' as int
  }

  function DigitChar(d: nat): (c: char)
    requires d < 10
    ensures IsDigit(c) && DigitValue(c) == d
  {
    ('0' as int + d) as char
  }

  /** s without its leading white space, as `std::stoi` skips it. */
  function SkipSpaces(s: string): string
  {
    if s != [] && IsSpace(s[0]) then SkipSpaces(s[1..]) else s
  }

  /** What SkipSpaces leaves is a suffix of s that does not start with a
      white-space character. */
  lemma {:induction false} SkipSpacesShape(s: string)
    ensures var r := SkipSpaces(s); |r| <= |s| && r == s[|s| - |r|..] && (r == [] || !IsSpace(r[0]))
  {
    if s != [] && IsSpace(s[0]) {
      SkipSpacesShape(s[1..]);
    }
  }

  /** The longest prefix of s made of decimal digits. */
  function LeadingDigits(s: string): string
  {
    if s != [] && IsDigit(s[0]) then [s[0]] + LeadingDigits(s[1..]) else []
  }

  /** LeadingDigits is a prefix of digits that stops at the first other
      character. */
  lemma {:induction false} LeadingDigitsShape(s: string)
    ensures var r := LeadingDigits(s);
      r <= s && (forall k :: 0 <= k < |r| ==> IsDigit(r[k])) && (|r| == |s| || !IsDigit(s[|r|]))
  {
    if s != [] && IsDigit(s[0]) {
      LeadingDigitsShape(s[1..]);
    }
  }

  /** The value of a string of decimal digits, most significant first. */
  function DigitsValue(d: string): nat
    requires forall k :: 0 <= k < |d| ==> IsDigit(d[k])
    decreases |d|
  {
    if d == [] then 0 else DigitsValue(d[..|d| - 1]) * 10 + DigitValue(d[|d| - 1])
  }

  /** A token `std::stoi` reads without throwing `invalid_argument`: after
      optional leading white space it starts with a digit. (Signs are not
      admitted by the model.) */
  predicate IsNumeral(tok: string)
  {
    var r := SkipSpaces(tok); r != [] && IsDigit(r[0])
  }

  /** `std::stoi` on a numeral: the value of the digit run after the leading
      white space; whatever follows the digits is ignored. */
  function Stoi(tok: string): nat
    requires IsNumeral(tok)
  {
    LeadingDigitsShape(SkipSpaces(tok));
    DigitsValue(LeadingDigits(SkipSpaces(tok)))
  }
  /** Skipping white space in front of text that does not start with any. */
  lemma {:induction false} SkipSpacesOver(w: string, x: string)
    requires forall k :: 0 <= k < |w| ==> IsSpace(w[k])
    requires x != [] && !IsSpace(x[0])
    ensures SkipSpaces(w + x) == x
    decreases |w|
  {
    if w == [] {
      assert w + x == x;
    } else {
      SkipSpacesOver(w[1..], x);
      assert (w + x)[1..] == w[1..] + x;
    }
  }

  /** `std::stoi` on white space, a run of digits and anything that does not
      start with a digit reads the value of the digits. */
  lemma StoiOf(w: string, d: string, rest: string)
    requires forall k :: 0 <= k < |w| ==> IsSpace(w[k])
    requires d != [] && forall k :: 0 <= k < |d| ==> IsDigit(d[k])
    requires rest == [] || !IsDigit(rest[0])
    ensures IsNumeral(w + d + rest) && Stoi(w + d + rest) == DigitsValue(d)
  {
    assert w + d + rest == w + (d + rest);
    SkipSpacesOver(w, d + rest);
    LeadingDigitsOf(d, rest);
  }


  /** The decimal form of n, as a stream prints an unsigned integer. */
  function Decimal(n: nat): (r: string)
    ensures r != [] && forall k :: 0 <= k < |r| ==> IsDigit(r[k])
    decreases n
  {
    if n < 10 then [DigitChar(n)] else Decimal(n / 10) + [DigitChar(n % 10)]
  }

  lemma {:induction false} DecimalValue(n: nat)
    ensures DigitsValue(Decimal(n)) == n
    decreases n
  {
    if n >= 10 {
      DecimalValue(n / 10);
      var d := Decimal(n);
      assert d[..|d| - 1] == Decimal(n / 10);
    } else {
      assert Decimal(n)[..0] == [];
    }
  }

  lemma {:induction false} LeadingDigitsOf(d: string, rest: string)
    requires forall k :: 0 <= k < |d| ==> IsDigit(d[k])
    requires rest == [] || !IsDigit(rest[0])
    ensures LeadingDigits(d + rest) == d
    decreases |d|
  {
    if d != [] {
      LeadingDigitsOf(d[1..], rest);
      assert (d + rest)[1..] == d[1..] + rest;
    } else {
      assert d + rest == rest;
    }
  }

  /** Reading back a printed number: `std::stoi` of the decimal form of n,
      followed by anything that does not start with a digit, is n. */
  lemma StoiDecimal(n: nat, rest: string)
    requires rest == [] || !IsDigit(rest[0])
    ensures IsNumeral(Decimal(n) + rest) && Stoi(Decimal(n) + rest) == n
  {
    var d := Decimal(n);
    assert !IsSpace(d[0]);
    assert (d + rest)[0] == d[0];
    assert SkipSpaces(d + rest) == d + rest;
    LeadingDigitsOf(d, rest);
    DecimalValue(n);
  }

  // ---------------------------------------------------------------------------
  // Lines of the learning-set format

  /** `line.find_first_not_of(" \n") != 0`: the line is empty or starts with a
      space or a newline. */
  predicate IsBlankStart(line: string)
  {
    line == [] || line[0] == ' ' || line[0] == '\n'
  }

  /** A comment line starts with '#'. */
  predicate IsComment(line: string)
  {
    line != [] && line[0] == '#'
  }

  /** A line that holds data: neither blank, nor starting with a space or a
      newline, nor a comment. */
  predicate IsDataLine(line: string)
  {
    !IsBlankStart(line) && !IsComment(line)
  }

  /** `find_first_not_of(chars)`: the index of the first character of s that
      is not in chars, or -1 (`npos`) when there is none. */
  function FindFirstNotOf(s: string, chars: seq<char>): (r: int)
    ensures -1 <= r < |s|
    ensures r >= 0 ==> s[r] !in chars && forall k :: 0 <= k < r ==> s[k] in chars
    ensures r == -1 ==> forall k :: 0 <= k < |s| ==> s[k] in chars
    decreases |s|
  {
    if s == [] then -1
    else if s[0] !in chars then 0
    else
      var r := FindFirstNotOf(s[1..], chars);
      if r == -1 then -1 else r + 1
  }

  /** The line tests of the chord programs: a line is blank-started exactly
      when `find_first_not_of(" \n")` is not 0, and holds data exactly when it
      is 0 and the first character is not `#`. */
  lemma LineClassification(line: string)
    ensures IsBlankStart(line) <==> FindFirstNotOf(line, " \n") != 0
    ensures IsDataLine(line) <==> FindFirstNotOf(line, " \n") == 0 && line[0] != '#'
  {
  }

  // ---------------------------------------------------------------------------
  // Writing numbers back

  /** The decimal forms of some numbers. */
  function Decimals(ns: seq<nat>): seq<string>
  {
    seq(|ns|, k requires 0 <= k < |ns| => Decimal(ns[k]))
  }

  /** Text written right after a join belongs to its last item. */
  lemma JoinExtendLast(xs: seq<string>, t: char, s: string)
    requires xs != []
    ensures Join(xs, t) + s == Join(xs[..|xs| - 1] + [xs[|xs| - 1] + s], t)
  {
    var ys := xs[..|xs| - 1] + [xs[|xs| - 1] + s];
    if |xs| > 1 {
      assert ys[..|ys| - 1] == xs[..|xs| - 1];
    }
  }

  /** A character that is neither the separator nor in any item is not in
      the join. */
  lemma {:induction false} JoinWithout(xs: seq<string>, t: char, c: char)
    requires c != t && forall k :: 0 <= k < |xs| ==> c !in xs[k]
    ensures c !in Join(xs, t)
    decreases |xs|
  {
    if |xs| > 1 {
      JoinWithout(xs[..|xs| - 1], t, c);
    }
  }

  /** Joining one more item adds a separator and the item. */
  lemma JoinSnoc(xs: seq<string>, x: string, t: char)
    ensures Join(xs + [x], t) == if xs == [] then x else Join(xs, t) + [t] + x
  {
    assert (xs + [x])[..|xs|] == xs;
  }

  /** The join of one more item of xs. */
  lemma JoinPrefix(xs: seq<string>, i: nat, t: char)
    requires i < |xs|
    ensures Join(xs[..i + 1], t) == if i == 0 then xs[0] else Join(xs[..i], t) + [t] + xs[i]
  {
    JoinSnoc(xs[..i], xs[i], t);
    assert xs[..i + 1] == xs[..i] + [xs[i]];
  }

  /** A join starts with the first character of its first item. */
  lemma {:induction false} JoinHead(xs: seq<string>, t: char)
    requires xs != [] && xs[0] != ""
    ensures Join(xs, t) != "" && Join(xs, t)[0] == xs[0][0]
    decreases |xs|
  {
    if |xs| > 1 {
      JoinHead(xs[..|xs| - 1], t);
    }
  }
}
