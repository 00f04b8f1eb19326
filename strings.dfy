/**
 * The part of Go's `strings` package that the build tool relies on, on
 * `string` (a sequence of code points). Every separator the tool splits on is
 * a single character, so `Split` and `Join` take a `char`.
 */
module Strings {

  /** strings.HasPrefix */
  predicate HasPrefix(s: string, p: string)
  {
    |p| <= |s| && s[..|p|] == p
  }

  /** strings.HasSuffix */
  predicate HasSuffix(s: string, p: string)
  {
    |p| <= |s| && s[|s| - |p|..] == p
  }

  /** strings.Contains: `sub` occurs somewhere in `s`. */
  predicate Contains(s: string, sub: string)
  {
    HasPrefix(s, sub) || (s != [] && Contains(s[1..], sub))
  }

  /** strings.TrimPrefix */
  function TrimPrefix(s: string, p: string): (r: string)
    ensures HasPrefix(s, p) ==> s == p + r
    ensures !HasPrefix(s, p) ==> r == s
  {
    if HasPrefix(s, p) then s[|p|..] else s
  }

  /** strings.TrimSuffix */
  function TrimSuffix(s: string, p: string): (r: string)
    ensures HasSuffix(s, p) ==> s == r + p
    ensures !HasSuffix(s, p) ==> r == s
  {
    if HasSuffix(s, p) then s[..|s| - |p|] else s
  }

  /**
   * strings.Split with a one-character separator: the pieces between the
   * occurrences of `sep`. There is always at least one piece, and no piece
   * contains the separator.
   */
  function Split(s: string, sep: char): (r: seq<string>)
    ensures |r| >= 1
    ensures forall i :: 0 <= i < |r| ==> sep !in r[i]
  {
    if s == [] then [""]
    else
      var rest := Split(s[1..], sep);
      if s[0] == sep then [""] + rest
      else [[s[0]] + rest[0]] + rest[1..]
  }

  /** strings.Join with a one-character separator. */
  function Join(parts: seq<string>, sep: char): string
  {
    if |parts| == 0 then ""
    else if |parts| == 1 then parts[0]
    else parts[0] + [sep] + Join(parts[1..], sep)
  }

  /** The first character of a join comes from the first part. */
  lemma JoinFirst(parts: seq<string>, sep: char)
    requires |parts| >= 1 && parts[0] != []
    ensures Join(parts, sep) != [] && Join(parts, sep)[0] == parts[0][0]
  {
  }

  /** The last character of a join comes from the last part. */
  lemma {:induction false} JoinLast(parts: seq<string>, sep: char)
    requires |parts| >= 1 && parts[|parts| - 1] != []
    ensures var j := Join(parts, sep);
      j != [] && j[|j| - 1] == parts[|parts| - 1][|parts[|parts| - 1]| - 1]
  {
    if |parts| > 1 {
      var rest := parts[1..];
      JoinLast(rest, sep);
      assert Join(parts, sep) == parts[0] + [sep] + Join(rest, sep);
    }
  }

  /** Joining the pieces of a split gives the original string back. */
  lemma {:induction false} JoinSplit(s: string, sep: char)
    ensures Join(Split(s, sep), sep) == s
  {
    if s != [] {
      var rest := Split(s[1..], sep);
      JoinSplit(s[1..], sep);
      if s[0] != sep && |rest| > 1 {
        assert rest == [rest[0]] + rest[1..];
        assert Join(rest, sep) == rest[0] + [sep] + Join(rest[1..], sep);
      }
    }
  }

  /** Splitting a string that starts with a separator-free part. */
  lemma {:induction false} SplitPrefix(a: string, b: string, sep: char)
    requires sep !in a
    ensures Split(a + b, sep) == [a + Split(b, sep)[0]] + Split(b, sep)[1..]
  {
    if a != [] {
      var t := a + b;
      var q := Split(b, sep);
      assert t[0] == a[0] && t[0] != sep;
      assert t[1..] == a[1..] + b;
      SplitPrefix(a[1..], b, sep);
      var rest := Split(t[1..], sep);
      assert rest == [a[1..] + q[0]] + q[1..];
      assert Split(t, sep) == [[t[0]] + rest[0]] + rest[1..];
      assert [a[0]] + (a[1..] + q[0]) == a + q[0];
    } else {
      var q := Split(b, sep);
      assert a + b == b && a + q[0] == q[0];
      assert q == [q[0]] + q[1..];
    }
  }

  /** A separator-free part followed by the separator splits off as the first piece. */
  lemma SplitAtSep(a: string, b: string, sep: char)
    requires sep !in a
    ensures Split(a + [sep] + b, sep) == [a] + Split(b, sep)
  {
    var t := [sep] + b;
    assert a + [sep] + b == a + t;
    SplitPrefix(a, t, sep);
    assert t[0] == sep && t[1..] == b;
    assert Split(t, sep) == [""] + Split(b, sep);
    assert a + "" == a;
  }

  /** A string splits into one piece exactly when it has no separator. */
  lemma SplitSingle(s: string, sep: char)
    ensures |Split(s, sep)| == 1 <==> sep !in s
  {
    var p := Split(s, sep);
    JoinSplit(s, sep);
    if sep !in s {
      SplitPrefix(s, "", sep);
      assert s + "" == s;
      assert p == [s + Split("", sep)[0]] + Split("", sep)[1..];
    }
  }

  /**
   * When the separator occurs, the first piece is the text before its first
   * occurrence and the later pieces rejoined are the text after it.
   */
  lemma SplitFirst(s: string, sep: char)
    ensures var p := Split(s, sep);
      sep !in p[0] && HasPrefix(s, p[0])
      && (sep in s ==> |p| >= 2 && s == p[0] + [sep] + Join(p[1..], sep))
      && (sep !in s ==> p[0] == s)
  {
    var p := Split(s, sep);
    JoinSplit(s, sep);
    SplitSingle(s, sep);
    if |p| >= 2 {
      assert s == p[0] + [sep] + Join(p[1..], sep);
      assert s[..|p[0]|] == p[0];
    }
  }
  /** strings.Split(s, sep)[0]: the text before the first `sep`, or all of `s` when there is none. */
  function Before(s: string, sep: char): (r: string)
    ensures sep !in r && HasPrefix(s, r)
    ensures r == s || s[|r|] == sep
  {
    SplitFirst(s, sep);
    Split(s, sep)[0]
  }


  /** Splitting a join of separator-free pieces gives the pieces back. */
  lemma {:induction false} SplitJoin(parts: seq<string>, sep: char)
    requires |parts| >= 1
    requires forall i :: 0 <= i < |parts| ==> sep !in parts[i]
    ensures Split(Join(parts, sep), sep) == parts
  {
    if |parts| == 1 {
      SplitSingle(parts[0], sep);
      SplitFirst(parts[0], sep);
    } else {
      var tail := Join(parts[1..], sep);
      SplitJoin(parts[1..], sep);
      assert Join(parts, sep) == parts[0] + ([sep] + tail);
      SplitPrefix(parts[0], [sep] + tail, sep);
      assert ([sep] + tail)[1..] == tail;
      var q := Split([sep] + tail, sep);
      assert q == [""] + Split(tail, sep);
      assert Split(Join(parts, sep), sep) == [parts[0] + ""] + parts[1..];
      assert parts[0] + "" == parts[0];
      assert parts == [parts[0]] + parts[1..];
    }
  }

  /**
   * strings.Replace(s, pat, rep, -1) for a non-empty pattern: every
   * occurrence of `pat`, scanning left to right without overlap, becomes `rep`.
   */
  function ReplaceAll(s: string, pat: string, rep: string): string
    requires pat != ""
    decreases |s|
  {
    if s == [] then []
    else if HasPrefix(s, pat) then rep + ReplaceAll(s[|pat|..], pat, rep)
    else [s[0]] + ReplaceAll(s[1..], pat, rep)
  }

  /** Replacing never introduces a character absent from the input and the replacement. */
  lemma {:induction false} ReplaceKeepsOut(s: string, pat: string, rep: string, c: char)
    requires pat != ""
    requires c !in s && c !in rep
    ensures c !in ReplaceAll(s, pat, rep)
    decreases |s|
  {
    if s != [] {
      if HasPrefix(s, pat) {
        ReplaceKeepsOut(s[|pat|..], pat, rep, c);
      } else {
        ReplaceKeepsOut(s[1..], pat, rep, c);
      }
    }
  }

  /**
   * When the replacement is non-empty and shares no character with the
   * pattern, a prefix of the output made only of pattern characters is a
   * prefix of the input as well.
   */
  lemma {:induction false} ReplacePrefixFromInput(t: string, pat: string, rep: string, q: string)
    requires pat != "" && rep != ""
    requires forall i :: 0 <= i < |rep| ==> rep[i] !in pat
    requires forall i :: 0 <= i < |q| ==> q[i] in pat
    requires HasPrefix(ReplaceAll(t, pat, rep), q)
    ensures HasPrefix(t, q)
    decreases |t|
  {
    if q != [] {
      var r := ReplaceAll(t, pat, rep);
      assert r[0] == q[0];
      if HasPrefix(t, pat) {
        assert false;
      } else {
        var r' := ReplaceAll(t[1..], pat, rep);
        assert r == [t[0]] + r';
        assert HasPrefix(r', q[1..]) by {
          assert r'[..|q| - 1] == r[1..|q|];
        }
        ReplacePrefixFromInput(t[1..], pat, rep, q[1..]);
        assert t[..|q|] == [t[0]] + t[1..][..|q| - 1];
      }
    }
  }

  /** A pattern cannot start inside a prefix made only of non-pattern characters. */
  lemma {:induction false} ContainsAfterForeign(a: string, b: string, pat: string)
    requires pat != ""
    requires forall i :: 0 <= i < |a| ==> a[i] !in pat
    ensures Contains(a + b, pat) <==> Contains(b, pat)
  {
    if a == [] {
      assert a + b == b;
    } else {
      assert !HasPrefix(a + b, pat) by {
        assert (a + b)[0] == a[0] && a[0] !in pat;
        assert pat[0] in pat;
      }
      assert (a + b)[1..] == a[1..] + b;
      ContainsAfterForeign(a[1..], b, pat);
    }
  }

  /**
   * After replacing every occurrence of `pat` by a non-empty `rep` that shares
   * no character with `pat`, no occurrence of `pat` remains.
   */
  lemma {:induction false} ReplaceAllRemoves(s: string, pat: string, rep: string)
    requires pat != "" && rep != ""
    requires forall i :: 0 <= i < |rep| ==> rep[i] !in pat
    ensures !Contains(ReplaceAll(s, pat, rep), pat)
    decreases |s|
  {
    if s != [] {
      var r := ReplaceAll(s, pat, rep);
      if HasPrefix(s, pat) {
        ReplaceAllRemoves(s[|pat|..], pat, rep);
        ContainsAfterForeign(rep, ReplaceAll(s[|pat|..], pat, rep), pat);
      } else {
        var r' := ReplaceAll(s[1..], pat, rep);
        ReplaceAllRemoves(s[1..], pat, rep);
        assert r[1..] == r';
        if HasPrefix(r, pat) {
          forall i | 0 <= i < |pat| ensures pat[i] in pat { }
          ReplacePrefixFromInput(s, pat, rep, pat);
          assert false;
        }
      }
    }
  }

  /** A one-character pattern occurs exactly when the character does. */
  lemma {:induction false} ContainsChar(s: string, c: char)
    ensures Contains(s, [c]) <==> c in s
  {
    if s != [] {
      ContainsChar(s[1..], c);
      assert s == [s[0]] + s[1..];
    }
  }

  /** Replacing a pattern that does not occur changes nothing. */
  lemma {:induction false} ReplaceAbsent(s: string, pat: string, rep: string)
    requires pat != ""
    requires !Contains(s, pat)
    ensures ReplaceAll(s, pat, rep) == s
    decreases |s|
  {
    if s != [] {
      ReplaceAbsent(s[1..], pat, rep);
      assert s == [s[0]] + s[1..];
    }
  }

  /** Two pieces are joined around one separator. */
  lemma JoinTwo(a: string, b: string, sep: char)
    ensures Join([a, b], sep) == a + [sep] + b
  {
    assert [a, b][1..] == [b];
  }

  /** A prefix in which no occurrence of the pattern can start is copied unchanged. */
  lemma {:induction false} ReplaceForeignPrefix(a: string, b: string, pat: string, rep: string)
    requires pat != ""
    requires forall i :: 0 <= i < |a| ==> a[i] != pat[0]
    ensures ReplaceAll(a + b, pat, rep) == a + ReplaceAll(b, pat, rep)
    decreases |a|
  {
    if a == [] {
      assert a + b == b;
    } else {
      assert (a + b)[0] == a[0] && (a + b)[1..] == a[1..] + b;
      assert !HasPrefix(a + b, pat) by {
        assert (a + b)[0] != pat[0];
      }
      ReplaceForeignPrefix(a[1..], b, pat, rep);
      assert [a[0]] + (a[1..] + ReplaceAll(b, pat, rep)) == a + ReplaceAll(b, pat, rep);
    }
  }

  /** An occurrence of the pattern at the front is replaced. */
  lemma ReplaceMatchPrefix(b: string, pat: string, rep: string)
    requires pat != ""
    ensures ReplaceAll(pat + b, pat, rep) == rep + ReplaceAll(b, pat, rep)
  {
    assert HasPrefix(pat + b, pat);
    assert (pat + b)[|pat|..] == b;
  }

  /** A pattern occurring once, after a prefix where it cannot start, is replaced once. */
  lemma ReplaceOnce(a: string, tail: string, pat: string, rep: string)
    requires pat != ""
    requires forall i :: 0 <= i < |a| ==> a[i] != pat[0]
    requires !Contains(tail, pat)
    ensures ReplaceAll(a + pat + tail, pat, rep) == a + rep + tail
  {
    assert a + pat + tail == a + (pat + tail);
    ReplaceForeignPrefix(a, pat + tail, pat, rep);
    ReplaceMatchPrefix(tail, pat, rep);
    ReplaceAbsent(tail, pat, rep);
    assert a + (rep + tail) == a + rep + tail;
  }

  /** The characters that Go's unicode.IsSpace reports as white space. */
  const Whitespace: set<char> := {
    ' ', '\t', '\n', '\r', '\U{000B}', '\U{000C}', '\U{0085}', '\U{00A0}',
    '\U{1680}', '\U{2000}', '\U{2001}', '\U{2002}', '\U{2003}', '\U{2004}',
    '\U{2005}', '\U{2006}', '\U{2007}', '\U{2008}', '\U{2009}', '\U{200A}',
    '\U{2028}', '\U{2029}', '\U{202F}', '\U{205F}', '\U{3000}'
  }

  /** strings.TrimLeft: drops the leading characters that are in `cut`. */
  function TrimLeft(s: string, cut: set<char>): (r: string)
    ensures |r| <= |s|
    ensures r == [] || r[0] !in cut
  {
    if s != [] && s[0] in cut then TrimLeft(s[1..], cut) else s
  }

  /** strings.TrimRight: drops the trailing characters that are in `cut`. */
  function TrimRight(s: string, cut: set<char>): (r: string)
    ensures |r| <= |s|
    ensures r == [] || r[|r| - 1] !in cut
  {
    if s != [] && s[|s| - 1] in cut then TrimRight(s[..|s| - 1], cut) else s
  }

  /** TrimLeft keeps a suffix, and everything it drops is in `cut`. */
  lemma {:induction false} TrimLeftSuffix(s: string, cut: set<char>)
    ensures var r := TrimLeft(s, cut);
      r == s[|s| - |r|..] && forall i :: 0 <= i < |s| - |r| ==> s[i] in cut
  {
    if s != [] && s[0] in cut {
      TrimLeftSuffix(s[1..], cut);
    }
  }

  /** TrimRight keeps a prefix, and everything it drops is in `cut`. */
  lemma {:induction false} TrimRightPrefix(s: string, cut: set<char>)
    ensures var r := TrimRight(s, cut);
      r == s[..|r|] && forall i :: |r| <= i < |s| ==> s[i] in cut
  {
    if s != [] && s[|s| - 1] in cut {
      var t := s[..|s| - 1];
      TrimRightPrefix(t, cut);
      var r := TrimRight(t, cut);
      assert TrimRight(s, cut) == r;
      assert r == t[..|r|] && t[..|r|] == s[..|r|];
      forall i | |r| <= i < |s| ensures s[i] in cut {
        if i < |t| {
          assert s[i] == t[i];
        }
      }
    }
  }

  /** strings.Trim: drops leading and trailing characters that are in `cut`. */
  function Trim(s: string, cut: set<char>): string
  {
    TrimRight(TrimLeft(s, cut), cut)
  }

  /** strings.TrimSpace */
  function TrimSpace(s: string): string
  {
    Trim(s, Whitespace)
  }

  /** Trimming leaves a string alone whose two ends are not in `cut`. */
  lemma TrimUntouched(s: string, cut: set<char>)
    requires s == [] || (s[0] !in cut && s[|s| - 1] !in cut)
    ensures Trim(s, cut) == s
  {
  }

  lemma {:induction false} TrimLeftPrefix(pre: string, w: string, cut: set<char>)
    requires forall i :: 0 <= i < |pre| ==> pre[i] in cut
    requires w == [] || w[0] !in cut
    ensures TrimLeft(pre + w, cut) == w
  {
    if pre == [] {
      assert pre + w == w;
    } else {
      assert (pre + w)[0] == pre[0];
      assert (pre + w)[1..] == pre[1..] + w;
      TrimLeftPrefix(pre[1..], w, cut);
    }
  }

  lemma {:induction false} TrimRightSuffix(w: string, post: string, cut: set<char>)
    requires forall i :: 0 <= i < |post| ==> post[i] in cut
    requires w == [] || w[|w| - 1] !in cut
    ensures TrimRight(w + post, cut) == w
  {
    if post == [] {
      assert w + post == w;
    } else {
      var n := |w + post|;
      assert (w + post)[n - 1] == post[|post| - 1];
      assert (w + post)[..n - 1] == w + post[..|post| - 1];
      TrimRightSuffix(w, post[..|post| - 1], cut);
    }
  }

  /** Trimming strips characters of `cut` wrapped around a string whose ends are outside `cut`. */
  lemma TrimWrapped(pre: string, s: string, post: string, cut: set<char>)
    requires s != [] && s[0] !in cut && s[|s| - 1] !in cut
    requires forall i :: 0 <= i < |pre| ==> pre[i] in cut
    requires forall i :: 0 <= i < |post| ==> post[i] in cut
    ensures Trim(pre + s + post, cut) == s
  {
    assert pre + s + post == pre + (s + post);
    TrimLeftPrefix(pre, s + post, cut);
    TrimRightSuffix(s, post, cut);
  }

  /** All characters are ASCII decimal digits (the regular expression `[0-9]*`). */
  predicate AllDigits(s: string)
  {
    forall i :: 0 <= i < |s| ==> '0' <= s[i] <= '9'
  }

  /**
   * Go's string order `a <= b`: byte-wise lexicographic. On code points this
   * is the same order, because UTF-8 encoding preserves code-point order.
   */
  predicate LexLe(a: string, b: string)
  {
    a == [] || (b != [] && (a[0] < b[0] || (a[0] == b[0] && LexLe(a[1..], b[1..]))))
  }

  lemma {:induction false} LexLeRefl(a: string)
    ensures LexLe(a, a)
  {
    if a != [] {
      LexLeRefl(a[1..]);
    }
  }

  lemma {:induction false} LexLeTotal(a: string, b: string)
    ensures LexLe(a, b) || LexLe(b, a)
  {
    if a != [] && b != [] && a[0] == b[0] {
      LexLeTotal(a[1..], b[1..]);
    }
  }

  lemma {:induction false} LexLeTrans(a: string, b: string, c: string)
    requires LexLe(a, b) && LexLe(b, c)
    ensures LexLe(a, c)
  {
    if a != [] && b != [] && c != [] && a[0] == b[0] == c[0] {
      LexLeTrans(a[1..], b[1..], c[1..]);
    }
  }

  lemma {:induction false} LexLeAntisym(a: string, b: string)
    requires LexLe(a, b) && LexLe(b, a)
    ensures a == b
  {
    if a != [] && b != [] {
      LexLeAntisym(a[1..], b[1..]);
      assert a == [a[0]] + a[1..] && b == [b[0]] + b[1..];
    }
  }

  /** A shared prefix does not change the order. */
  lemma {:induction false} LexLeCommonPrefix(p: string, a: string, b: string)
    ensures LexLe(p + a, p + b) <==> LexLe(a, b)
  {
    if p != [] {
      assert (p + a)[1..] == p[1..] + a && (p + b)[1..] == p[1..] + b;
      LexLeCommonPrefix(p[1..], a, b);
    } else {
      assert p + a == a && p + b == b;
    }
  }

  /**
   * Comparing two strings that start with blocks of equal length: the blocks
   * decide unless they are equal, and then the rest decides.
   */
  lemma {:induction false} LexLeBlocks(x1: string, y1: string, x2: string, y2: string)
    requires |x1| == |x2|
    ensures LexLe(x1 + y1, x2 + y2) <==> (x1 != x2 && LexLe(x1, x2)) || (x1 == x2 && LexLe(y1, y2))
  {
    if x1 == [] {
      assert x1 + y1 == y1 && x2 + y2 == y2;
    } else {
      assert (x1 + y1)[1..] == x1[1..] + y1 && (x2 + y2)[1..] == x2[1..] + y2;
      LexLeBlocks(x1[1..], y1, x2[1..], y2);
      if x1[0] == x2[0] {
        assert x1 == x2 <==> x1[1..] == x2[1..] by {
          assert x1 == [x1[0]] + x1[1..] && x2 == [x2[0]] + x2[1..];
        }
      }
    }
  }
}
