/**
 * The parts of Python's `str` that the header parser and the permission
 * check rely on: `split()` with no argument, `lower()` and the `in`
 * operator between two strings.
 */
module Text {

  /** The characters for which Python's `str.isspace()` holds. */
  predicate IsSpace(c: char)
  {
    ('\t' <= c <= '\r') || ('\U{1C}' <= c <= '\U{1F}') || c == ' '
    || c == '\U{85}' || c == '\U{A0}' || c == '\U{1680}'
    || ('\U{2000}' <= c <= '\U{200A}') || c == '\U{2028}' || c == '\U{2029}'
    || c == '\U{202F}' || c == '\U{205F}' || c == '\U{3000}'
  }

  predicate NoSpace(s: string)
  {
    forall i :: 0 <= i < |s| ==> !IsSpace(s[i])
  }

  predicate AllSpace(s: string)
  {
    forall i :: 0 <= i < |s| ==> IsSpace(s[i])
  }

  /** A piece `split()` can return: non-empty and free of whitespace. */
  predicate IsWord(w: string)
  {
    w != [] && NoSpace(w)
  }

  predicate AllWords(parts: seq<string>)
  {
    forall k :: 0 <= k < |parts| ==> IsWord(parts[k])
  }

  /** Length of the longest whitespace-free prefix of `s`. */
  function WordLen(s: string): (n: nat)
    ensures n <= |s|
    ensures NoSpace(s[..n])
    ensures n == |s| || IsSpace(s[n])
  {
    if s == [] || IsSpace(s[0]) then 0
    else
      var m := WordLen(s[1..]);
      assert s[..m + 1] == [s[0]] + s[1..][..m];
      m + 1
  }

  /**
   * Python's `s.split()`: the maximal runs of non-whitespace characters,
   * in order; leading, trailing and repeated whitespace yields no empty
   * piece.
   */
  function Split(s: string): (parts: seq<string>)
    ensures AllWords(parts)
    decreases |s|
  {
    if s == [] then []
    else if IsSpace(s[0]) then Split(s[1..])
    else
      var n := WordLen(s);
      [s[..n]] + Split(s[n..])
  }

  function LowerChar(c: char): char
  {
    if 'A' <= c <= 'Z' then (c as int + 32) as char else c
  }

  /**
   * Python's `s.lower()` on ASCII letters. Python also lowers non-ASCII
   * letters, but none of them lowers to an ASCII letter of "bearer", so
   * comparing `Lower(s)` with "bearer" gives Python's answer.
   */
  function Lower(s: string): (r: string)
    ensures |r| == |s|
    ensures forall i :: 0 <= i < |s| ==> r[i] == LowerChar(s[i])
  {
    if s == [] then [] else [LowerChar(s[0])] + Lower(s[1..])
  }

  /** Python's `needle in hay` between two strings: `needle` occurs in `hay`. */
  predicate IsSubstring(needle: string, hay: string)
    ensures IsSubstring(needle, hay) ==> |needle| <= |hay|
    ensures needle == [] ==> IsSubstring(needle, hay)
    decreases |hay|
  {
    needle <= hay || (hay != [] && IsSubstring(needle, hay[1..]))
  }

  lemma {:induction false} SubstringAt(needle: string, hay: string, k: nat)
    requires k + |needle| <= |hay| && hay[k..k + |needle|] == needle
    ensures IsSubstring(needle, hay)
    decreases k
  {
    if k > 0 {
      assert hay[1..][k - 1..k - 1 + |needle|] == needle;
      SubstringAt(needle, hay[1..], k - 1);
    }
  }

  lemma {:induction false} SubstringWitness(needle: string, hay: string) returns (k: nat)
    requires IsSubstring(needle, hay)
    ensures k + |needle| <= |hay| && hay[k..k + |needle|] == needle
    decreases |hay|
  {
    if needle <= hay {
      k := 0;
    } else {
      var k' := SubstringWitness(needle, hay[1..]);
      k := k' + 1;
      assert hay[k..k + |needle|] == hay[1..][k'..k' + |needle|];
    }
  }

  // ---------------------------------------------------------------------
  // Splitting and re-joining

  /**
   * `seps[0] + parts[0] + seps[1] + ... + parts[n-1] + seps[n]`: the
   * words `parts` with the whitespace runs `seps` around and between them.
   */
  function Concat(seps: seq<string>, parts: seq<string>): string
    requires |seps| == |parts| + 1
  {
    if parts == [] then seps[0]
    else seps[0] + parts[0] + Concat(seps[1..], parts[1..])
  }

  /** Whitespace runs that separate the words: the inner ones are non-empty. */
  predicate Separators(seps: seq<string>, parts: seq<string>)
  {
    && |seps| == |parts| + 1
    && (forall k :: 0 <= k < |seps| ==> AllSpace(seps[k]))
    && (forall k :: 0 < k < |parts| ==> seps[k] != [])
  }

  lemma {:induction false} SplitAfterSpace(w: string, s: string)
    requires AllSpace(w)
    ensures Split(w + s) == Split(s)
    decreases |w|
  {
    if w == [] {
      assert w + s == s;
    } else {
      assert (w + s)[0] == w[0];
      assert (w + s)[1..] == w[1..] + s;
      SplitAfterSpace(w[1..], s);
    }
  }

  lemma {:induction false} WordLenOf(p: string, s: string)
    requires NoSpace(p)
    requires s == [] || IsSpace(s[0])
    ensures WordLen(p + s) == |p|
    decreases |p|
  {
    if p == [] {
      assert p + s == s;
    } else {
      assert (p + s)[0] == p[0];
      assert (p + s)[1..] == p[1..] + s;
      WordLenOf(p[1..], s);
    }
  }

  lemma SplitWord(p: string, s: string)
    requires IsWord(p)
    requires s == [] || IsSpace(s[0])
    ensures Split(p + s) == [p] + Split(s)
  {
    WordLenOf(p, s);
    assert (p + s)[0] == p[0];
    assert (p + s)[..|p|] == p;
    assert (p + s)[|p|..] == s;
  }

  /** Splitting words joined by whitespace gives back exactly those words. */
  lemma {:induction false} SplitConcat(seps: seq<string>, parts: seq<string>)
    requires Separators(seps, parts)
    requires AllWords(parts)
    ensures Split(Concat(seps, parts)) == parts
    decreases |parts|
  {
    if parts == [] {
      SplitAfterSpace(seps[0], []);
      assert seps[0] + [] == seps[0];
    } else {
      var rest := Concat(seps[1..], parts[1..]);
      assert Separators(seps[1..], parts[1..]) by {
        forall k | 0 < k < |parts[1..]| ensures seps[1..][k] != [] {
          assert seps[1..][k] == seps[k + 1];
        }
        forall k | 0 <= k < |seps[1..]| ensures AllSpace(seps[1..][k]) {
          assert seps[1..][k] == seps[k + 1];
        }
      }
      assert AllWords(parts[1..]) by {
        forall k | 0 <= k < |parts[1..]| ensures IsWord(parts[1..][k]) {
          assert parts[1..][k] == parts[k + 1];
        }
      }
      assert rest == [] || IsSpace(rest[0]) by {
        if parts[1..] == [] {
          assert rest == seps[1];
          assert AllSpace(seps[1]);
        } else {
          assert seps[1] != [];
          assert rest == seps[1] + (parts[1] + Concat(seps[2..], parts[2..])) by {
            assert seps[1..][1..] == seps[2..];
            assert parts[1..][1..] == parts[2..];
          }
          assert AllSpace(seps[1]);
          assert rest[0] == seps[1][0];
        }
      }
      assert Concat(seps, parts) == seps[0] + (parts[0] + rest);
      SplitAfterSpace(seps[0], parts[0] + rest);
      SplitWord(parts[0], rest);
      SplitConcat(seps[1..], parts[1..]);
    }
  }

  lemma ConcatPrepend(c: char, seps: seq<string>, parts: seq<string>)
    requires |seps| == |parts| + 1
    ensures Concat([[c] + seps[0]] + seps[1..], parts) == [c] + Concat(seps, parts)
  {
    var seps' := [[c] + seps[0]] + seps[1..];
    assert seps'[0] == [c] + seps[0];
    assert seps'[1..] == seps[1..];
  }

  /**
   * Every string is its `split()` pieces joined by whitespace runs; the
   * runs are returned.
   */
  lemma {:induction false} SplitSeparators(s: string) returns (seps: seq<string>)
    ensures Separators(seps, Split(s))
    ensures Concat(seps, Split(s)) == s
    decreases |s|
  {
    if s == [] {
      seps := [[]];
    } else if IsSpace(s[0]) {
      var r := SplitSeparators(s[1..]);
      seps := [[s[0]] + r[0]] + r[1..];
      ConcatPrepend(s[0], r, Split(s[1..]));
      assert s == [s[0]] + s[1..];
      assert AllSpace([s[0]] + r[0]);
      forall k | 0 < k < |seps| ensures seps[k] == r[k] {
      }
    } else {
      var n := WordLen(s);
      var tail := Split(s[n..]);
      var r := SplitSeparators(s[n..]);
      seps := [[]] + r;
      assert Split(s) == [s[..n]] + tail;
      assert ([s[..n]] + tail)[1..] == tail;
      assert seps[1..] == r;
      assert Concat(seps, Split(s)) == [] + s[..n] + s[n..];
      assert s[..n] + s[n..] == s;
      if tail != [] {
        assert s[n..] != [];
        assert IsSpace(s[n..][0]);
        assert s[n..] == r[0] + (tail[0] + Concat(r[1..], tail[1..]));
        assert IsWord(tail[0]) && !IsSpace(tail[0][0]);
        assert r[0] != [];
      }
      forall k | 0 < k < |seps| ensures seps[k] == r[k - 1] {
      }
    }
  }
}
