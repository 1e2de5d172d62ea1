/**
 * String helpers behind the task form: JavaScript's String.prototype.trim,
 * String.prototype.split(",") and the tag-parsing chain
 * `tags.split(",").map(t => t.trim()).filter(t => t.length > 0)`.
 */
module Text {
  type String = seq<char>

  /**
   * The code points that ECMAScript classes as WhiteSpace or LineTerminator,
   * which is exactly what String.prototype.trim removes: TAB, VT, FF, SP,
   * NBSP, ZWNBSP, every other Unicode "Zs" space, LF, CR, LS and PS.
   */
  predicate IsSpace(c: char) {
    c == '\t' || c == '\U{000B}' || c == '\U{000C}' || c == ' ' ||
    c == '\U{00A0}' || c == '\U{FEFF}' || c == '\U{1680}' ||
    ('\U{2000}' <= c <= '\U{200A}') || c == '\U{202F}' || c == '\U{205F}' ||
    c == '\U{3000}' ||
    c == '\n' || c == '\r' || c == '\U{2028}' || c == '\U{2029}'
  }

  predicate AllSpace(s: String) {
    forall i :: 0 <= i < |s| ==> IsSpace(s[i])
  }

  /** Drops leading whitespace. */
  function TrimStart(s: String): (r: String)
    ensures |r| <= |s|
    decreases |s|
  {
    if s != [] && IsSpace(s[0]) then TrimStart(s[1..]) else s
  }

  /** Drops trailing whitespace. */
  function TrimEnd(s: String): (r: String)
    ensures |r| <= |s|
    decreases |s|
  {
    if s != [] && IsSpace(s[|s| - 1]) then TrimEnd(s[..|s| - 1]) else s
  }

  /** String.prototype.trim. */
  function Trim(s: String): (r: String)
    ensures |r| <= |s|
  {
    TrimEnd(TrimStart(s))
  }

  /** TrimStart leaves the suffix after a whitespace-only prefix, starting with a non-space. */
  lemma {:induction false} TrimStartIsSuffix(s: String)
    ensures var k := |s| - |TrimStart(s)|;
      TrimStart(s) == s[k..] && AllSpace(s[..k])
    ensures TrimStart(s) == [] || !IsSpace(TrimStart(s)[0])
    decreases |s|
  {
    if s != [] && IsSpace(s[0]) {
      TrimStartIsSuffix(s[1..]);
      var k := |s| - |TrimStart(s)|;
      forall i | 0 <= i < k ensures IsSpace(s[..k][i]) {
        if i > 0 { assert s[..k][i] == s[1..][..k - 1][i - 1]; }
      }
    }
  }

  /** TrimEnd leaves the prefix before a whitespace-only suffix, ending with a non-space. */
  lemma {:induction false} TrimEndIsPrefix(s: String)
    ensures var n := |TrimEnd(s)|;
      TrimEnd(s) == s[..n] && AllSpace(s[n..])
    ensures TrimEnd(s) == [] || !IsSpace(TrimEnd(s)[|TrimEnd(s)| - 1])
    decreases |s|
  {
    if s != [] && IsSpace(s[|s| - 1]) {
      var s' := s[..|s| - 1];
      TrimEndIsPrefix(s');
      var n := |TrimEnd(s)|;
      assert s'[..n] == s[..n];
      forall i | 0 <= i < |s| - n ensures IsSpace(s[n..][i]) {
        if n + i < |s| - 1 { assert s[n..][i] == s'[n..][i]; }
      }
    }
  }

  /**
   * The trimmed string is the slice of `s` that is left after removing a
   * whitespace-only prefix and a whitespace-only suffix, and it neither starts
   * nor ends with whitespace.
   */
  lemma TrimIsSlice(s: String)
    ensures var k := |s| - |TrimStart(s)|;
      k + |Trim(s)| <= |s| && Trim(s) == s[k..k + |Trim(s)|] &&
      AllSpace(s[..k]) && AllSpace(s[k + |Trim(s)|..])
    ensures Trim(s) == [] || (!IsSpace(Trim(s)[0]) && !IsSpace(Trim(s)[|Trim(s)| - 1]))
  {
    var t := TrimStart(s);
    TrimStartIsSuffix(s);
    TrimEndIsPrefix(t);
    var k := |s| - |t|;
    var r := TrimEnd(t);
    assert r == s[k..k + |r|];
    assert s[k + |r|..] == t[|r|..];
    if r != [] {
      assert r[0] == t[0];
    }
  }

  /** A string trims to nothing exactly when it is all whitespace. */
  lemma TrimEmptyIffAllSpace(s: String)
    ensures Trim(s) == [] <==> AllSpace(s)
  {
    TrimIsSlice(s);
    var k := |s| - |TrimStart(s)|;
    if Trim(s) == [] {
      forall i | 0 <= i < |s| ensures IsSpace(s[i]) {
        if i < k { assert s[..k][i] == s[i]; } else { assert s[k..][i - k] == s[i]; }
      }
    } else {
      assert s[k] == Trim(s)[0];
    }
  }

  /** Trimming twice is trimming once. */
  lemma TrimIdempotent(s: String)
    ensures Trim(Trim(s)) == Trim(s)
  {
    TrimIsSlice(s);
  }

  /** Every character of the trimmed string occurs in the original. */
  lemma TrimSubset(s: String, c: char)
    ensures c in Trim(s) ==> c in s
  {
    TrimIsSlice(s);
    var k := |s| - |TrimStart(s)|;
    if c in Trim(s) {
      var i :| 0 <= i < |Trim(s)| && Trim(s)[i] == c;
      assert s[k + i] == c;
    }
  }

  /**
   * String.prototype.split(","): the pieces between commas, in order; an empty
   * string gives one empty piece and every comma starts a new piece.
   */
  function Split(s: String): (r: seq<String>)
    ensures |r| >= 1
    ensures forall i :: 0 <= i < |r| ==> ',' !in r[i]
    decreases |s|
  {
    if s == [] then [[]]
    else
      var rest := Split(s[1..]);
      if s[0] == ',' then [[]] + rest
      else [[s[0]] + rest[0]] + rest[1..]
  }

  /** Array.prototype.join(","), the inverse of Split. */
  function Join(ps: seq<String>): (r: String)
    requires |ps| >= 1
    decreases |ps|
  {
    if |ps| == 1 then ps[0] else ps[0] + [','] + Join(ps[1..])
  }

  lemma {:induction false} JoinConsFirst(c: char, ps: seq<String>)
    requires |ps| >= 1
    ensures Join([[c] + ps[0]] + ps[1..]) == [c] + Join(ps)
  {
    var qs := [[c] + ps[0]] + ps[1..];
    assert qs[1..] == ps[1..];
  }

  /** Joining the pieces back with commas gives the original string. */
  lemma {:induction false} JoinSplit(s: String)
    ensures Join(Split(s)) == s
    decreases |s|
  {
    if s != [] {
      var rest := Split(s[1..]);
      JoinSplit(s[1..]);
      if s[0] == ',' {
        assert ([[]] + rest)[1..] == rest;
      } else {
        JoinConsFirst(s[0], rest);
      }
      assert s == [s[0]] + s[1..];
    }
  }

  /** A string without commas is a single piece. */
  lemma {:induction false} SplitNoComma(s: String)
    requires ',' !in s
    ensures Split(s) == [s]
    decreases |s|
  {
    if s != [] {
      assert ',' !in s[1..] by {
        forall i | 0 <= i < |s[1..]| ensures s[1..][i] != ',' { assert s[1..][i] == s[i + 1]; }
      }
      SplitNoComma(s[1..]);
      assert s == [s[0]] + s[1..];
    }
  }

  /** A comma separates the pieces on its left from the pieces on its right. */
  lemma {:induction false} SplitAtComma(a: String, b: String)
    ensures Split(a + [','] + b) == Split(a) + Split(b)
    decreases |a|
  {
    var s := a + [','] + b;
    if a == [] {
      assert s[1..] == b;
    } else {
      assert s[1..] == a[1..] + [','] + b;
      SplitAtComma(a[1..], b);
    }
  }

  /** Splitting comma-free pieces joined by commas gives back those pieces. */
  lemma {:induction false} SplitJoin(ps: seq<String>)
    requires |ps| >= 1
    requires forall i :: 0 <= i < |ps| ==> ',' !in ps[i]
    ensures Split(Join(ps)) == ps
    decreases |ps|
  {
    SplitNoComma(ps[0]);
    if |ps| > 1 {
      SplitJoin(ps[1..]);
      SplitAtComma(ps[0], Join(ps[1..]));
      assert [ps[0]] + ps[1..] == ps;
    }
  }

  /** `.map(t => t.trim())` */
  function TrimAll(ps: seq<String>): (r: seq<String>)
    ensures |r| == |ps|
  {
    if ps == [] then [] else [Trim(ps[0])] + TrimAll(ps[1..])
  }

  /** `.filter(t => t.length > 0)` */
  function DropEmpty(ps: seq<String>): (r: seq<String>)
    ensures |r| <= |ps|
  {
    if ps == [] then []
    else (if ps[0] == [] then [] else [ps[0]]) + DropEmpty(ps[1..])
  }

  /** The tag list the task form sends for the text typed in its tag field. */
  function ParseTags(input: String): (r: seq<String>)
    ensures |r| <= |Split(input)|
  {
    DropEmpty(TrimAll(Split(input)))
  }

  lemma {:induction false} TrimAllConcat(a: seq<String>, b: seq<String>)
    ensures TrimAll(a + b) == TrimAll(a) + TrimAll(b)
  {
    if a == [] {
      assert a + b == b;
    } else {
      assert (a + b)[0] == a[0];
      assert (a + b)[1..] == a[1..] + b;
      TrimAllConcat(a[1..], b);
      assert [Trim(a[0])] + (TrimAll(a[1..]) + TrimAll(b))
          == ([Trim(a[0])] + TrimAll(a[1..])) + TrimAll(b);
    }
  }

  lemma {:induction false} DropEmptyConcat(a: seq<String>, b: seq<String>)
    ensures DropEmpty(a + b) == DropEmpty(a) + DropEmpty(b)
  {
    if a == [] {
      assert a + b == b;
    } else {
      var h := if a[0] == [] then [] else [a[0]];
      assert (a + b)[0] == a[0];
      assert (a + b)[1..] == a[1..] + b;
      DropEmptyConcat(a[1..], b);
      assert h + (DropEmpty(a[1..]) + DropEmpty(b)) == (h + DropEmpty(a[1..])) + DropEmpty(b);
    }
  }

  /**
   * Order: the tags of the text before a comma come first, then the tags of
   * the text after it.
   */
  lemma ParseTagsAtComma(a: String, b: String)
    ensures ParseTags(a + [','] + b) == ParseTags(a) + ParseTags(b)
  {
    SplitAtComma(a, b);
    TrimAllConcat(Split(a), Split(b));
    DropEmptyConcat(TrimAll(Split(a)), TrimAll(Split(b)));
  }

  /** A comma-free piece yields its trimmed text, or nothing when that is blank. */
  lemma ParseTagsPiece(a: String)
    requires ',' !in a
    ensures ParseTags(a) == if Trim(a) == [] then [] else [Trim(a)]
  {
    SplitNoComma(a);
    assert TrimAll([a]) == [Trim(a)];
  }

  /** A comma-free word without surrounding whitespace is exactly one tag. */
  lemma ParseTagsWord(w: String)
    requires ',' !in w && w != [] && !IsSpace(w[0]) && !IsSpace(w[|w| - 1])
    ensures ParseTags(w) == [w]
  {
    assert TrimStart(w) == w;
    assert TrimEnd(w) == w;
    ParseTagsPiece(w);
  }

  /** Two words separated by a blank piece give exactly those two tags. */
  lemma ParseTagsWordsAroundBlank(a: String, blank: String, b: String)
    requires ',' !in a && a != [] && !IsSpace(a[0]) && !IsSpace(a[|a| - 1])
    requires ',' !in b && b != [] && !IsSpace(b[0]) && !IsSpace(b[|b| - 1])
    requires ',' !in blank && AllSpace(blank)
    ensures ParseTags(a + [','] + blank + [','] + b) == [a, b]
  {
    var rest := blank + [','] + b;
    assert a + [','] + blank + [','] + b == a + [','] + rest;
    assert ParseTags(rest) == [b] by {
      ParseTagsAtComma(blank, b);
      TrimEmptyIffAllSpace(blank);
      ParseTagsPiece(blank);
      ParseTagsWord(b);
    }
    assert ParseTags(a) == [a] by {
      ParseTagsWord(a);
    }
    ParseTagsAtComma(a, rest);
  }
  lemma {:induction false} TrimAllShape(ps: seq<String>, i: int)
    requires 0 <= i < |ps|
    ensures TrimAll(ps)[i] == Trim(ps[i])
  {
    if i > 0 { TrimAllShape(ps[1..], i - 1); }
  }

  lemma {:induction false} DropEmptyMember(ps: seq<String>, t: String)
    ensures t in DropEmpty(ps) <==> t in ps && t != []
  {
    if ps != [] {
      DropEmptyMember(ps[1..], t);
      assert ps == [ps[0]] + ps[1..];
    }
  }

  /**
   * Every parsed tag is non-empty, already trimmed, free of commas, and the
   * trim of one of the comma-separated pieces of the input.
   */
  lemma ParseTagsWellFormed(input: String, t: String)
    requires t in ParseTags(input)
    ensures t != [] && Trim(t) == t && ',' !in t
    ensures exists i :: 0 <= i < |Split(input)| && t == Trim(Split(input)[i])
  {
    var ps := Split(input);
    DropEmptyMember(TrimAll(ps), t);
    var i :| 0 <= i < |TrimAll(ps)| && TrimAll(ps)[i] == t;
    TrimAllShape(ps, i);
    TrimIdempotent(ps[i]);
    TrimSubset(ps[i], ',');
  }

  /**
   * Blank pieces and only blank pieces are dropped: the trim of every piece
   * that is not all whitespace is a tag.
   */
  lemma ParseTagsKeepsNonBlank(input: String, i: int)
    requires 0 <= i < |Split(input)| && !AllSpace(Split(input)[i])
    ensures Trim(Split(input)[i]) in ParseTags(input)
  {
    var ps := Split(input);
    TrimEmptyIffAllSpace(ps[i]);
    TrimAllShape(ps, i);
    DropEmptyMember(TrimAll(ps), Trim(ps[i]));
  }
}
