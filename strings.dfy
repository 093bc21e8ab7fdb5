/** Python string operations used by the pipeline code: `str.split`, `str.join`,
    `str.replace` and `str.strip`, on strings as sequences of characters. */
module Strings {

  predicate StartsWith(s: string, prefix: string) {
    |prefix| <= |s| && s[..|prefix|] == prefix
  }

  /** `s.split(sep)`: cut `s` at every leftmost, non-overlapping occurrence of `sep`. */
  function Split(s: string, sep: string): (pieces: seq<string>)
    requires sep != []
    ensures |pieces| >= 1
    decreases |s|
  {
    if s == [] then [""]
    else if StartsWith(s, sep) then [""] + Split(s[|sep|..], sep)
    else
      var rest := Split(s[1..], sep);
      [[s[0]] + rest[0]] + rest[1..]
  }

  /** `sep.join(pieces)`. */
  function Join(pieces: seq<string>, sep: string): string
    requires |pieces| >= 1
    decreases |pieces|
  {
    if |pieces| == 1 then pieces[0] else pieces[0] + sep + Join(pieces[1..], sep)
  }

  /** Prefixing the first piece prefixes the joined string. */
  lemma JoinPrepend(c: string, pieces: seq<string>, sep: string)
    requires |pieces| >= 1
    ensures Join([c + pieces[0]] + pieces[1..], sep) == c + Join(pieces, sep)
  {
    var joined := [c + pieces[0]] + pieces[1..];
    assert joined[0] == c + pieces[0] && joined[1..] == pieces[1..];
    if |pieces| > 1 {
      var tail := sep + Join(pieces[1..], sep);
      assert (c + pieces[0]) + tail == c + (pieces[0] + tail);
    }
  }

  /** Splitting and joining with the same separator gives the string back. */
  lemma {:induction false} JoinSplit(s: string, sep: string)
    requires sep != []
    ensures Join(Split(s, sep), sep) == s
    decreases |s|
  {
    if s == [] {
    } else if StartsWith(s, sep) {
      JoinSplit(s[|sep|..], sep);
      JoinSplitAtSeparator(s, sep);
    } else {
      JoinSplit(s[1..], sep);
      JoinSplitAtChar(s, sep);
    }
  }

  lemma JoinSplitAtSeparator(s: string, sep: string)
    requires sep != [] && StartsWith(s, sep)
    requires Join(Split(s[|sep|..], sep), sep) == s[|sep|..]
    ensures Join(Split(s, sep), sep) == s
  {
    assert s == sep + s[|sep|..];
  }

  lemma JoinSplitAtChar(s: string, sep: string)
    requires sep != [] && s != [] && !StartsWith(s, sep)
    requires Join(Split(s[1..], sep), sep) == s[1..]
    ensures Join(Split(s, sep), sep) == s
  {
    JoinPrepend([s[0]], Split(s[1..], sep), sep);
    assert s == [s[0]] + s[1..];
  }

  /** A string without the separator's first character is a single piece. */
  lemma {:induction false} SplitNoSeparator(s: string, sep: string)
    requires sep != []
    requires forall i :: 0 <= i < |s| ==> s[i] != sep[0]
    ensures Split(s, sep) == [s]
    decreases |s|
  {
    if s != [] {
      assert !StartsWith(s, sep) by { if |sep| <= |s| { assert s[..|sep|][0] == s[0]; } }
      SplitNoSeparator(s[1..], sep);
      assert [s[0]] + s[1..] == s;
    }
  }

  /** Cutting `a + sep + b` where `a` cannot start an occurrence of `sep`. */
  lemma {:induction false} SplitAfter(a: string, sep: string, b: string)
    requires sep != []
    requires forall i :: 0 <= i < |a| ==> a[i] != sep[0]
    ensures Split(a + sep + b, sep) == [a] + Split(b, sep)
    decreases |a|
  {
    var s := a + sep + b;
    if a == [] {
      assert s == sep + b;
      assert StartsWith(s, sep);
      assert s[|sep|..] == b;
    } else {
      assert !StartsWith(s, sep) by { if |sep| <= |s| { assert s[..|sep|][0] == s[0] == a[0]; } }
      assert s[1..] == a[1..] + sep + b;
      SplitAfter(a[1..], sep, b);
      assert [a[0]] + a[1..] == a;
    }
  }

  /** Joining pieces that do not contain the separator's first character and splitting
      again gives the pieces back. */
  lemma {:induction false} SplitJoin(pieces: seq<string>, sep: string)
    requires sep != [] && |pieces| >= 1
    requires forall p, i :: p in pieces && 0 <= i < |p| ==> p[i] != sep[0]
    ensures Split(Join(pieces, sep), sep) == pieces
    decreases |pieces|
  {
    if |pieces| == 1 {
      SplitNoSeparator(pieces[0], sep);
    } else {
      assert pieces[0] in pieces;
      assert forall p :: p in pieces[1..] ==> p in pieces;
      SplitJoin(pieces[1..], sep);
      SplitAfter(pieces[0], sep, Join(pieces[1..], sep));
    }
  }

  /** `s.replace(pat, rep)`: every leftmost, non-overlapping occurrence of `pat` is replaced. */
  function Replace(s: string, pat: string, rep: string): string
    requires pat != []
    decreases |s|
  {
    if s == [] then []
    else if StartsWith(s, pat) then rep + Replace(s[|pat|..], pat, rep)
    else [s[0]] + Replace(s[1..], pat, rep)
  }

  /** Python documents `s.replace(pat, rep)` as `rep.join(s.split(pat))`. */
  lemma {:induction false} ReplaceIsSplitJoin(s: string, pat: string, rep: string)
    requires pat != []
    ensures Replace(s, pat, rep) == Join(Split(s, pat), rep)
    decreases |s|
  {
    if s == [] {
    } else if StartsWith(s, pat) {
      ReplaceIsSplitJoin(s[|pat|..], pat, rep);
    } else {
      ReplaceIsSplitJoin(s[1..], pat, rep);
      var rest := Split(s[1..], pat);
      if |rest| > 1 {
        assert [s[0]] + rest[0] + rep + Join(rest[1..], rep) == [s[0]] + Join(rest, rep);
      }
    }
  }

  /** Replacing with a string of the same length keeps the length. */
  lemma {:induction false} ReplaceKeepsLength(s: string, pat: string, rep: string)
    requires pat != [] && |pat| == |rep|
    ensures |Replace(s, pat, rep)| == |s|
    decreases |s|
  {
    if s == [] {
    } else if StartsWith(s, pat) {
      ReplaceKeepsLength(s[|pat|..], pat, rep);
    } else {
      ReplaceKeepsLength(s[1..], pat, rep);
    }
  }

  /** The characters `str.strip()` removes: those `str.isspace()` accepts, that is the
      ASCII controls TAB to CR and FS to US, the space, NEL, NO-BREAK SPACE, and the
      Unicode separators and spaces of the general punctuation and CJK blocks. */
  predicate IsSpace(c: char) {
    if c <= ' ' then '\U{9}' <= c <= '\U{D}' || '\U{1C}' <= c
    else if c < '\U{1680}' then c == '\U{85}' || c == '\U{A0}'
    else c == '\U{1680}' || '\U{2000}' <= c <= '\U{200A}' || c == '\U{2028}' || c == '\U{2029}'
         || c == '\U{202F}' || c == '\U{205F}' || c == '\U{3000}'
  }

  function LeadingSpace(s: string): (n: nat)
    ensures n <= |s|
    ensures forall k :: 0 <= k < n ==> IsSpace(s[k])
    ensures n < |s| ==> !IsSpace(s[n])
    decreases |s|
  {
    if s != [] && IsSpace(s[0]) then 1 + LeadingSpace(s[1..]) else 0
  }

  function TrailingSpace(s: string): (n: nat)
    ensures n <= |s|
    ensures forall k :: |s| - n <= k < |s| ==> IsSpace(s[k])
    ensures n < |s| ==> !IsSpace(s[|s| - 1 - n])
    decreases |s|
  {
    if s != [] && IsSpace(s[|s| - 1]) then 1 + TrailingSpace(s[..|s| - 1]) else 0
  }

  /** `s.strip()`: the infix of `s` left once leading and trailing whitespace is cut. */
  function Strip(s: string): (r: string)
    ensures exists i, j :: 0 <= i <= j <= |s| && r == s[i..j]
              && (forall k :: 0 <= k < i ==> IsSpace(s[k]))
              && (forall k :: j <= k < |s| ==> IsSpace(s[k]))
    ensures r != [] ==> !IsSpace(r[0]) && !IsSpace(r[|r| - 1])
  {
    var i := LeadingSpace(s);
    var t := s[i..];
    var j := i + |t| - TrailingSpace(t);
    assert s[i..j] == t[..|t| - TrailingSpace(t)];
    s[i..j]
  }

  /** Like `str.strip()`, the cut takes Unicode whitespace too: a no-break space before
      and an ideographic space after "1.5" are removed. */
  lemma StripUnicodeSpace()
    ensures Strip("\U{A0}1.5\U{3000}") == "1.5"
  {
    var s := "\U{A0}1.5\U{3000}";
    assert LeadingSpace(s[1..]) == 0;
    assert LeadingSpace(s) == 1;
    var t := s[1..];
    assert TrailingSpace(t[..3]) == 0;
    assert TrailingSpace(t) == 1;
    assert s[1..4] == "1.5";
  }

  /** The string has no whitespace at either end. */
  predicate Unspaced(s: string) {
    s != [] ==> !IsSpace(s[0]) && !IsSpace(s[|s| - 1])
  }

  /** A string without whitespace at either end is its own `strip()`. */
  lemma StripUnspaced(s: string)
    requires Unspaced(s)
    ensures Strip(s) == s
  {
    assert LeadingSpace(s) == 0;
    assert s[0..] == s;
    assert TrailingSpace(s) == 0;
  }
}
