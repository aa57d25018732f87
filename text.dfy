/**
 * The string operations the catalogue relies on, restricted to ASCII:
 * `toLowerCase()`, `trim()`, `includes(...)` and `split(/\s+/)`.
 */
module Text {

  /** The ASCII characters that `\s` and `trim()` treat as whitespace. */
  predicate IsSpace(c: char) {
    c == ' ' || c == '\t' || c == '\n' || c == '\r' || c == '\U{000B}' || c == '\U{000C}'
  }

  /** ASCII lower-casing of one character; every other character is left alone. */
  function LowerChar(c: char): (r: char)
    ensures 'A' <= c <= 'Z' ==> r as int == c as int + 32
    ensures !('A' <= c <= 'Z') ==> r == c
    ensures IsSpace(r) <==> IsSpace(c)
  {
    if 'A' <= c <= 'Z' then (c as int + 32) as char else c
  }

  /** `s.toLowerCase()`, character by character. */
  function Lower(s: string): (r: string)
    ensures |r| == |s|
    ensures forall i :: 0 <= i < |s| ==> r[i] == LowerChar(s[i])
  {
    seq(|s|, i requires 0 <= i < |s| => LowerChar(s[i]))
  }

  /** `text.includes(k)`: `k` occurs in `text` as a contiguous piece. */
  predicate Contains(text: string, k: string) {
    exists i :: 0 <= i <= |text| && k <= text[i..]
  }

  /** The empty string occurs in every text, so an empty keyword matches everything. */
  lemma EmptyContained(text: string)
    ensures Contains(text, "")
  {
    assert "" <= text[0..];
  }

  /** A text in which the first two characters of `k` never stand side by side does not contain `k`. */
  lemma AbsentPairNotContained(text: string, k: string)
    requires |k| >= 2
    requires forall i :: 0 <= i < |text| - 1 ==> !(text[i] == k[0] && text[i + 1] == k[1])
    ensures !Contains(text, k)
  {
    forall i | 0 <= i <= |text| ensures !(k <= text[i..]) {
      if i + 1 < |text| {
        assert !(text[i..][0] == k[0] && text[i..][1] == k[1]);
      }
    }
  }

  /** Text without capital letters is its own lower case. */
  lemma LowerOfLowerCase(s: string)
    requires forall i :: 0 <= i < |s| ==> !('A' <= s[i] <= 'Z')
    ensures Lower(s) == s
  {
  }

  /** `!s.trim()`: the string is empty or consists only of whitespace. */
  predicate IsBlank(s: string) {
    forall i :: 0 <= i < |s| ==> IsSpace(s[i])
  }

  /** Index of the first whitespace character at or after `i`, or `|s|` when there is none. */
  function NextSpace(s: string, i: nat): (j: nat)
    requires i <= |s|
    ensures i <= j <= |s|
    ensures j < |s| ==> IsSpace(s[j])
    ensures forall k :: i <= k < j ==> !IsSpace(s[k])
    decreases |s| - i
  {
    if i == |s| || IsSpace(s[i]) then i else NextSpace(s, i + 1)
  }

  /** Index just past the run of whitespace that starts at `i`. */
  function SkipSpaces(s: string, i: nat): (j: nat)
    requires i <= |s|
    ensures i <= j <= |s|
    ensures j < |s| ==> !IsSpace(s[j])
    ensures forall k :: i <= k < j ==> IsSpace(s[k])
    decreases |s| - i
  {
    if i == |s| || !IsSpace(s[i]) then i else SkipSpaces(s, i + 1)
  }

  /**
   * `s.split(/\s+/)`: the pieces between maximal runs of whitespace. A string
   * that starts (ends) with whitespace yields an empty first (last) piece.
   */
  function Split(s: string): (r: seq<string>)
    ensures r != []
    decreases |s|
  {
    var i := NextSpace(s, 0);
    if i == |s| then [s]
    else [s[..i]] + Split(s[SkipSpaces(s, i)..])
  }

  /** The characters of `s` that are not whitespace, in order. */
  function RemoveSpaces(s: string): string {
    if s == [] then []
    else (if IsSpace(s[0]) then [] else [s[0]]) + RemoveSpaces(s[1..])
  }

  /** All pieces joined with nothing in between. */
  function Concat(pieces: seq<string>): string {
    if pieces == [] then [] else pieces[0] + Concat(pieces[1..])
  }

  lemma {:induction false} RemoveSpacesAppend(a: string, b: string)
    ensures RemoveSpaces(a + b) == RemoveSpaces(a) + RemoveSpaces(b)
  {
    if a == [] {
      assert a + b == b;
    } else {
      assert (a + b)[1..] == a[1..] + b;
      RemoveSpacesAppend(a[1..], b);
    }
  }

  lemma {:induction false} RemoveSpacesOfWord(a: string)
    requires forall k :: 0 <= k < |a| ==> !IsSpace(a[k])
    ensures RemoveSpaces(a) == a
  {
    if a != [] {
      RemoveSpacesOfWord(a[1..]);
    }
  }

  lemma {:induction false} RemoveSpacesOfBlank(a: string)
    requires IsBlank(a)
    ensures RemoveSpaces(a) == []
  {
    if a != [] {
      RemoveSpacesOfBlank(a[1..]);
    }
  }

  /** No piece of a split holds whitespace. */
  lemma {:induction false} SplitPiecesHaveNoSpace(s: string)
    ensures forall p, k :: p in Split(s) && 0 <= k < |p| ==> !IsSpace(p[k])
    decreases |s|
  {
    var i := NextSpace(s, 0);
    if i < |s| {
      SplitPiecesHaveNoSpace(s[SkipSpaces(s, i)..]);
    }
  }

  /** Splitting loses no character other than whitespace: joined back, the pieces are `s` without its spaces. */
  lemma {:induction false} SplitKeepsEveryOtherCharacter(s: string)
    ensures Concat(Split(s)) == RemoveSpaces(s)
    decreases |s|
  {
    var i := NextSpace(s, 0);
    if i == |s| {
      RemoveSpacesOfWord(s);
      assert Concat([s]) == s + Concat([]);
    } else {
      var j := SkipSpaces(s, i);
      var word, gap, t := s[..i], s[i..j], s[j..];
      assert s == word + (gap + t);
      RemoveSpacesAppend(word, gap + t);
      RemoveSpacesAppend(gap, t);
      assert forall k :: 0 <= k < |word| ==> !IsSpace(word[k]);
      RemoveSpacesOfWord(word);
      assert IsBlank(gap);
      RemoveSpacesOfBlank(gap);
      assert RemoveSpaces(s) == word + RemoveSpaces(t);
      var rest := Split(t);
      SplitKeepsEveryOtherCharacter(t);
      assert Split(s) == [word] + rest;
      assert ([word] + rest)[1..] == rest;
    }
  }

  /** The first piece is empty exactly when `s` is empty or starts with whitespace. */
  lemma SplitFirstEmpty(s: string)
    ensures Split(s)[0] == "" <==> (s == [] || IsSpace(s[0]))
  {
  }

  /** The last piece is empty exactly when `s` is empty or ends with whitespace. */
  lemma {:induction false} SplitLastEmpty(s: string)
    ensures Split(s)[|Split(s)| - 1] == "" <==> (s == [] || IsSpace(s[|s| - 1]))
    decreases |s|
  {
    var i := NextSpace(s, 0);
    if i < |s| {
      var j := SkipSpaces(s, i);
      var t := s[j..];
      SplitLastEmpty(t);
      assert Split(s)[|Split(s)| - 1] == Split(t)[|Split(t)| - 1];
      if t != [] {
        assert t[|t| - 1] == s[|s| - 1];
      }
    }
  }

  /** Every piece other than the first and the last is a non-empty word. */
  lemma {:induction false} SplitInnerPiecesNonEmpty(s: string)
    ensures forall k :: 0 < k < |Split(s)| - 1 ==> Split(s)[k] != ""
    decreases |s|
  {
    var i := NextSpace(s, 0);
    if i < |s| {
      var j := SkipSpaces(s, i);
      var t := s[j..];
      SplitInnerPiecesNonEmpty(t);
      if t != [] {
        SplitFirstEmpty(t);
      }
      forall k | 0 < k < |Split(s)| - 1 ensures Split(s)[k] != "" {
        assert Split(s)[k] == Split(t)[k - 1];
      }
    }
  }

  /** A string without whitespace is a single piece. */
  lemma SplitWord(w: string)
    requires forall k :: 0 <= k < |w| ==> !IsSpace(w[k])
    ensures Split(w) == [w]
  {
    assert NextSpace(w, 0) == |w|;
  }

  /** `NextSpace` finds the first whitespace character at or after `from`, and no other index. */
  lemma {:induction false} NextSpaceIs(s: string, from: nat, i: nat)
    requires from <= i <= |s|
    requires forall k :: from <= k < i ==> !IsSpace(s[k])
    requires i < |s| ==> IsSpace(s[i])
    ensures NextSpace(s, from) == i
    decreases i - from
  {
    if from < i {
      NextSpaceIs(s, from + 1, i);
    }
  }

  /** `SkipSpaces` stops at the first non-whitespace character at or after `from`, and nowhere else. */
  lemma {:induction false} SkipSpacesIs(s: string, from: nat, i: nat)
    requires from <= i <= |s|
    requires forall k :: from <= k < i ==> IsSpace(s[k])
    requires i < |s| ==> !IsSpace(s[i])
    ensures SkipSpaces(s, from) == i
    decreases i - from
  {
    if from < i {
      SkipSpacesIs(s, from + 1, i);
    }
  }

  lemma DropFromAppend(a: string, b: string, j: nat)
    requires j <= |a|
    ensures (a + b)[j..] == a[j..] + b
  {
  }

  /** A word followed by a maximal run of whitespace splits off as the first piece. */
  lemma SplitAtSpaceRun(s: string, i: nat, j: nat)
    requires i < j <= |s|
    requires forall k :: 0 <= k < i ==> !IsSpace(s[k])
    requires forall k :: i <= k < j ==> IsSpace(s[k])
    requires j < |s| ==> !IsSpace(s[j])
    ensures Split(s) == [s[..i]] + Split(s[j..])
  {
    NextSpaceIs(s, 0, i);
    SkipSpacesIs(s, i, j);
  }

  /**
   * Joining two strings with one space joins their pieces, provided the
   * space does not merge with whitespace already at the seam.
   */
  lemma {:induction false} SplitJoin(q: string, r: string)
    requires q == [] || !IsSpace(q[|q| - 1])
    requires r == [] || !IsSpace(r[0])
    ensures Split(q + " " + r) == Split(q) + Split(r)
    decreases |q|
  {
    var s := q + " " + r;
    var i := NextSpace(q, 0);
    if i == |q| {
      SplitWord(q);
      SplitJoinWord(q, r);
    } else {
      var j := SkipSpaces(q, i);
      var t := q[j..];
      SplitJoinStep(q, r, i, j);
      SplitJoin(t, r);
    }
  }

  /** The last step of `SplitJoin`: a single word of `q` splits off `q + " " + r` on its own. */
  lemma SplitJoinWord(q: string, r: string)
    requires forall k :: 0 <= k < |q| ==> !IsSpace(q[k])
    requires r == [] || !IsSpace(r[0])
    ensures Split(q + " " + r) == [q] + Split(r)
  {
    var s := q + " " + r;
    assert forall k :: 0 <= k < |q| ==> s[k] == q[k];
    assert s[..|q|] == q && s[|q|] == ' ' && s[|q| + 1..] == r;
    SplitAtSpaceRun(s, |q|, |q| + 1);
  }

  /** One step of `SplitJoin`: the first word of `q` and the space after it split off `q + " " + r` as they do off `q`. */
  lemma SplitJoinStep(q: string, r: string, i: nat, j: nat)
    requires i < j < |q|
    requires forall k :: 0 <= k < i ==> !IsSpace(q[k])
    requires forall k :: i <= k < j ==> IsSpace(q[k])
    requires !IsSpace(q[j])
    ensures Split(q) == [q[..i]] + Split(q[j..])
    ensures Split(q + " " + r) == [q[..i]] + Split(q[j..] + " " + r)
  {
    SplitAtSpaceRun(q, i, j);
    var s := q + " " + r;
    DropFromAppend(q, " " + r, j);
    assert s == q + (" " + r);
    assert q[j..] + " " + r == q[j..] + (" " + r);
    assert s[..i] == q[..i];
    SplitAtSpaceRun(s, i, j);
  }

  /** Lower-casing is character by character, so it distributes over concatenation. */
  lemma LowerAppend(a: string, b: string)
    ensures Lower(a + b) == Lower(a) + Lower(b)
  {
  }

  /** Character-code order on strings: a proper prefix comes first. */
  predicate LexLe(a: string, b: string) {
    a == [] || (b != [] && (a[0] < b[0] || (a[0] == b[0] && LexLe(a[1..], b[1..]))))
  }

  lemma {:induction false} LexLeTotal(a: string, b: string)
    ensures LexLe(a, b) || LexLe(b, a)
  {
    if a != [] && b != [] && a[0] == b[0] {
      LexLeTotal(a[1..], b[1..]);
    }
  }

  lemma {:induction false} LexLeTransitive(a: string, b: string, c: string)
    requires LexLe(a, b) && LexLe(b, c)
    ensures LexLe(a, c)
  {
    if a != [] && b != [] && c != [] && a[0] == b[0] == c[0] {
      LexLeTransitive(a[1..], b[1..], c[1..]);
    }
  }
}
