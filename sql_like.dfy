/**
 * The PostgreSQL `ILIKE` test the search endpoint issues, over ASCII text:
 * `%` stands for any run of characters, `_` for any one character, a
 * backslash (the default escape character) makes the next character
 * literal, and letters compare without regard to case.
 */
module SqlLike {
  import opened Text

  predicate ILike(text: string, pattern: string)
    decreases |text| + |pattern|
  {
    if pattern == [] then text == []
    else if pattern[0] == '%' then
      ILike(text, pattern[1..]) || (text != [] && ILike(text[1..], pattern))
    else if pattern[0] == '_' then
      text != [] && ILike(text[1..], pattern[1..])
    else if pattern[0] == '\\' then
      // PostgreSQL rejects a pattern that ends in a lone escape; no search pattern does.
      |pattern| >= 2 && text != [] && LowerChar(text[0]) == LowerChar(pattern[1]) && ILike(text[1..], pattern[2..])
    else
      text != [] && LowerChar(text[0]) == LowerChar(pattern[0]) && ILike(text[1..], pattern[1..])
  }

  /** The pattern the search endpoint builds: the term, unescaped, between two `%`. */
  function SearchPattern(term: string): (p: string)
    ensures |p| == |term| + 2 && p[0] == '%' && p[|p| - 1] == '%'
    ensures p[1..|p| - 1] == term
  {
    "%" + term + "%"
  }

  /** A term holding none of the characters `ILIKE` treats specially. */
  predicate Plain(term: string) {
    forall i :: 0 <= i < |term| ==> term[i] != '%' && term[i] != '_' && term[i] != '\\'
  }

  lemma {:induction false} PercentMatchesAll(text: string)
    ensures ILike(text, "%")
    decreases |text|
  {
    if text != [] {
      PercentMatchesAll(text[1..]);
    }
  }

  /** A leading `%` lets the rest of the pattern match any suffix of the text. */
  lemma {:induction false} LeadingPercent(text: string, p: string)
    ensures ILike(text, "%" + p) <==> exists i :: 0 <= i <= |text| && ILike(text[i..], p)
    decreases |text|
  {
    assert ("%" + p)[1..] == p;
    assert text[0..] == text;
    if text != [] {
      LeadingPercent(text[1..], p);
      if ILike(text[1..], "%" + p) {
        var i :| 0 <= i <= |text[1..]| && ILike(text[1..][i..], p);
        assert text[1..][i..] == text[i + 1..];
      }
      if exists i :: 0 <= i <= |text| && ILike(text[i..], p) {
        var i :| 0 <= i <= |text| && ILike(text[i..], p);
        if i > 0 {
          assert text[1..][i - 1..] == text[i..];
        }
      }
    }
  }

  /** A plain term followed by `%` matches exactly the texts that start with it, ignoring case. */
  lemma {:induction false} PlainThenPercent(text: string, q: string)
    requires Plain(q)
    ensures ILike(text, q + "%") <==> Lower(q) <= Lower(text)
    decreases |q|
  {
    if q == [] {
      assert q + "%" == "%";
      PercentMatchesAll(text);
    } else {
      assert (q + "%")[1..] == q[1..] + "%";
      assert Plain(q[1..]);
      PlainThenPercent(if text == [] then text else text[1..], q[1..]);
      if text != [] {
        assert Lower(q) == [LowerChar(q[0])] + Lower(q[1..]);
        assert Lower(text) == [LowerChar(text[0])] + Lower(text[1..]);
      }
    }
  }

  /**
   * For a term without wildcards or escapes, the search pattern matches
   * exactly the texts that contain the term, ignoring case.
   */
  lemma SearchPatternIsSubstring(text: string, term: string)
    requires Plain(term)
    ensures ILike(text, SearchPattern(term)) <==> Contains(Lower(text), Lower(term))
  {
    var p := term + "%";
    assert SearchPattern(term) == "%" + p;
    LeadingPercent(text, p);
    forall i | 0 <= i <= |text|
      ensures ILike(text[i..], p) <==> Lower(term) <= Lower(text)[i..]
    {
      PlainThenPercent(text[i..], term);
      assert Lower(text[i..]) == Lower(text)[i..];
    }
    if Contains(Lower(text), Lower(term)) {
      var i :| 0 <= i <= |Lower(text)| && Lower(term) <= Lower(text)[i..];
      assert ILike(text[i..], p);
    }
  }

  /** The term is not escaped: `%` in it matches every text, including the empty one. */
  lemma PercentTermMatchesEverything(text: string)
    ensures ILike(text, SearchPattern("%"))
  {
    assert SearchPattern("%") == "%" + "%%";
    PercentMatchesAll(text);
    assert ILike(text, "%%");
    LeadingPercent(text, "%%");
    assert text[0..] == text;
  }

  /** `_` in a term matches any one character, so "c_air" finds "Office Chair", which does not contain it. */
  lemma UnderscoreIsAWildcard()
    ensures ILike("Office Chair", SearchPattern("c_air"))
    ensures !Contains(Lower("Office Chair"), Lower("c_air"))
  {
    var text := "Office Chair";
    var p := "c_air%";
    assert SearchPattern("c_air") == "%" + p;
    assert text[7..] == "Chair";
    CAirMatchesChair();
    LeadingPercent(text, p);
    CAirNotInOfficeChair();
  }

  lemma CAirMatchesChair()
    ensures ILike("Chair", "c_air%")
  {
    assert ILike("", "%");
    assert ILike("r", "r%");
    assert ILike("ir", "ir%");
    assert ILike("air", "air%");
    assert ILike("hair", "_air%");
  }

  lemma CAirNotInOfficeChair()
    ensures !Contains(Lower("Office Chair"), Lower("c_air"))
  {
    assert Lower("c_air") == "c_air";
    assert Lower("Office Chair") == "office chair";
    AbsentPairNotContained("office chair", "c_air");
  }
}
