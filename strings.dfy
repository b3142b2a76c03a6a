/**
 * The three pieces of Go's `strings` package that the wrapper relies on:
 * `Contains`, `Trim`/`TrimSpace` and `Fields`. Whitespace is the ASCII set
 * that Go's `unicode.IsSpace` accepts below U+0080.
 */
module Strings {

  /** Tab, line feed, vertical tab, form feed, carriage return and space. */
  const AsciiSpace: set<char> := {'\t', '\n', '\U{000B}', '\U{000C}', '\r', ' '}

  predicate IsSpace(c: char) {
    c in AsciiSpace
  }

  /** A field as `Fields` produces it: non-empty and free of whitespace. */
  predicate IsWord(w: string) {
    w != [] && forall j :: 0 <= j < |w| ==> !IsSpace(w[j])
  }

  predicate AllIn(s: string, cut: set<char>) {
    forall k :: 0 <= k < |s| ==> s[k] in cut
  }

  // ---------------------------------------------------------------------------
  // strings.Contains

  /** `sub` occurs in `s` starting at index `i`. */
  predicate OccursAt(s: string, sub: string, i: int) {
    0 <= i <= |s| - |sub| && s[i..i + |sub|] == sub
  }

  /** `strings.Contains(s, sub)`: `sub` occurs somewhere in `s` (the empty `sub` is always found). */
  function Contains(s: string, sub: string): (r: bool)
    ensures r <==> exists i :: OccursAt(s, sub, i)
    decreases |s|
  {
    if |sub| > |s| then false
    else if s[..|sub|] == sub then assert OccursAt(s, sub, 0); true
    else
      var r := Contains(s[1..], sub);
      assert r ==> exists i :: OccursAt(s, sub, i) by {
        if r {
          var i :| OccursAt(s[1..], sub, i);
          assert s[1..][i..i + |sub|] == s[i + 1..i + 1 + |sub|];
          assert OccursAt(s, sub, i + 1);
        }
      }
      assert (exists i :: OccursAt(s, sub, i)) ==> r by {
        if exists i :: OccursAt(s, sub, i) {
          var i :| OccursAt(s, sub, i);
          assert i != 0;
          assert s[1..][i - 1..i - 1 + |sub|] == s[i..i + |sub|];
          assert OccursAt(s[1..], sub, i - 1);
        }
      }
      r
  }

  /** A substring stays a substring of any string that surrounds it. */
  lemma {:induction false} ContainsInContext(s: string, sub: string, p: string, q: string)
    requires Contains(s, sub)
    ensures Contains(p + s + q, sub)
  {
    var i :| OccursAt(s, sub, i);
    var t := p + s + q;
    assert t[|p| + i..|p| + i + |sub|] == s[i..i + |sub|];
    assert OccursAt(t, sub, |p| + i);
  }

  // ---------------------------------------------------------------------------
  // strings.TrimLeft / TrimRight / Trim with a cutset, and strings.TrimSpace

  /** Drops every leading character that is in `cut`. */
  function TrimLeft(s: string, cut: set<char>): (r: string)
    ensures |r| <= |s| && r == s[|s| - |r|..]
    ensures AllIn(s[..|s| - |r|], cut)
    ensures r == [] || r[0] !in cut
  {
    if s != [] && s[0] in cut then
      var r := TrimLeft(s[1..], cut);
      assert s[..|s| - |r|] == [s[0]] + s[1..][..|s| - 1 - |r|];
      r
    else s
  }

  /** Drops every trailing character that is in `cut`. */
  function TrimRight(s: string, cut: set<char>): (r: string)
    ensures |r| <= |s| && r == s[..|r|]
    ensures AllIn(s[|r|..], cut)
    ensures r == [] || r[|r| - 1] !in cut
  {
    if s != [] && s[|s| - 1] in cut then
      var init := s[..|s| - 1];
      var r := TrimRight(init, cut);
      assert s[|r|..] == init[|r|..] + [s[|s| - 1]];
      r
    else s
  }

  /**
   * `strings.Trim(s, cutset)`: removes whole runs of cutset characters at both
   * ends, not one matched pair. The result is empty exactly when every character
   * of `s` is in the cutset, and otherwise neither begins nor ends with one.
   */
  function Trim(s: string, cut: set<char>): (r: string)
    ensures r == [] <==> AllIn(s, cut)
    ensures r == [] || (r[0] !in cut && r[|r| - 1] !in cut)
  {
    var l := TrimLeft(s, cut);
    var r := TrimRight(l, cut);
    var i := |s| - |l|;
    ConcatSplit(s, i);
    AllInConcat(s[..i], l, cut);
    assert r == [] ==> l[|r|..] == l;
    assert r != [] ==> r[0] == l[0];
    r
  }

  /** Splitting a string at `i` and concatenating the halves gives it back. */
  lemma ConcatSplit(s: string, i: nat)
    requires i <= |s|
    ensures s == s[..i] + s[i..]
  {
  }

  /** Concatenation regroups freely; kept as a lemma so that callers see only this one fact. */
  lemma Associative(a: string, b: string, c: string)
    ensures a + (b + c) == a + b + c
  {
  }

  /** Every character of `a + b` is in the cutset exactly when every character of `a` and of `b` is. */
  lemma AllInConcat(a: string, b: string, cut: set<char>)
    ensures AllIn(a + b, cut) <==> AllIn(a, cut) && AllIn(b, cut)
  {
    var ab := a + b;
    if AllIn(ab, cut) {
      forall k | 0 <= k < |a| ensures a[k] in cut {
        assert a[k] == ab[k];
      }
      forall k | 0 <= k < |b| ensures b[k] in cut {
        assert b[k] == ab[|a| + k];
      }
    }
    if AllIn(a, cut) && AllIn(b, cut) {
      forall k | 0 <= k < |ab| ensures ab[k] in cut {
        if k < |a| {
          assert ab[k] == a[k];
        } else {
          assert ab[k] == b[k - |a|];
        }
      }
    }
  }

  /** `Trim` keeps a contiguous window of `s`; everything cut off on either side lies in the cutset. */
  lemma {:induction false} TrimWindow(s: string, cut: set<char>) returns (pre: string, post: string)
    ensures s == pre + Trim(s, cut) + post
    ensures AllIn(pre, cut) && AllIn(post, cut)
  {
    var l := TrimLeft(s, cut);
    var r := TrimRight(l, cut);
    assert Trim(s, cut) == r;
    var i := |s| - |l|;
    pre, post := s[..i], l[|r|..];
    ConcatSplit(l, |r|);
    ConcatSplit(s, i);
    Associative(pre, r, post);
  }

  /** Cutting leading cutset characters in front of `t` gives back `t`. */
  lemma {:induction false} TrimLeftPadded(pre: string, t: string, cut: set<char>)
    requires AllIn(pre, cut) && (t == [] || t[0] !in cut)
    ensures TrimLeft(pre + t, cut) == t
    decreases |pre|
  {
    if pre != [] {
      assert (pre + t)[1..] == pre[1..] + t;
      TrimLeftPadded(pre[1..], t, cut);
    }
  }

  /** Cutting trailing cutset characters behind `t` gives back `t`. */
  lemma {:induction false} TrimRightPadded(t: string, post: string, cut: set<char>)
    requires AllIn(post, cut) && (t == [] || t[|t| - 1] !in cut)
    ensures TrimRight(t + post, cut) == t
    decreases |post|
  {
    if post != [] {
      var last := |post| - 1;
      assert (t + post)[..|t + post| - 1] == t + post[..last];
      TrimRightPadded(t, post[..last], cut);
    } else {
      assert t + post == t;
    }
  }

  /**
   * `Trim` undoes padding: cutset characters added around a string that neither
   * begins nor ends with one are removed again, however many there are on each side.
   */
  lemma TrimPadded(pre: string, t: string, post: string, cut: set<char>)
    requires AllIn(pre, cut) && AllIn(post, cut)
    requires t == [] || (t[0] !in cut && t[|t| - 1] !in cut)
    ensures Trim(pre + t + post, cut) == t
  {
    var s := pre + t + post;
    if t == [] {
      forall k | 0 <= k < |s| ensures s[k] in cut {
        if k < |pre| {
          assert s[k] == pre[k];
        } else {
          assert s[k] == post[k - |pre|];
        }
      }
    } else {
      assert (t + post)[0] == t[0];
      assert s == pre + (t + post);
      TrimLeftPadded(pre, t + post, cut);
      TrimRightPadded(t, post, cut);
    }
  }

  /** A string that neither begins nor ends with a cutset character is its own trim. */
  lemma TrimUnpadded(s: string, cut: set<char>)
    requires s == [] || (s[0] !in cut && s[|s| - 1] !in cut)
    ensures Trim(s, cut) == s
  {
    assert TrimLeft(s, cut) == s;
  }

  /** `strings.TrimSpace` over the ASCII whitespace set. */
  function TrimSpace(s: string): (r: string)
    ensures r == [] <==> AllIn(s, AsciiSpace)
    ensures r == [] || (!IsSpace(r[0]) && !IsSpace(r[|r| - 1]))
  {
    Trim(s, AsciiSpace)
  }

  // ---------------------------------------------------------------------------
  // strings.Fields

  /** Length of the run of non-whitespace characters that starts `s`. */
  function WordLen(s: string): (k: nat)
    ensures k <= |s|
    ensures forall j :: 0 <= j < k ==> !IsSpace(s[j])
    ensures k == |s| || IsSpace(s[k])
  {
    if s == [] || IsSpace(s[0]) then 0 else 1 + WordLen(s[1..])
  }

  /** `strings.Fields`: the maximal runs of non-whitespace characters, in order. */
  function Fields(s: string): (r: seq<string>)
    ensures forall i :: 0 <= i < |r| ==> IsWord(r[i])
    decreases |s|
  {
    if s == [] then []
    else if IsSpace(s[0]) then Fields(s[1..])
    else
      var k := WordLen(s);
      [s[..k]] + Fields(s[k..])
  }

  /** The word-run length is unaffected by what follows a whitespace character. */
  lemma {:induction false} WordLenBeforeSpace(a: string, c: char, b: string)
    requires IsSpace(c)
    ensures WordLen(a + [c] + b) == WordLen(a + [c])
    ensures WordLen(a + [c]) <= |a|
  {
    if a != [] && !IsSpace(a[0]) {
      assert (a + [c] + b)[1..] == a[1..] + [c] + b;
      assert (a + [c])[1..] == a[1..] + [c];
      WordLenBeforeSpace(a[1..], c, b);
    }
  }

  /** A whitespace character separates fields: splitting there splits the result. */
  lemma {:induction false} FieldsSplit(a: string, c: char, b: string)
    requires IsSpace(c)
    ensures Fields(a + [c] + b) == Fields(a) + Fields(b)
    decreases |a|
  {
    var t := a + [c] + b;
    if a == [] {
      assert t[1..] == b;
    } else if IsSpace(a[0]) {
      assert t[1..] == a[1..] + [c] + b;
      FieldsSplit(a[1..], c, b);
    } else {
      WordLenBeforeSpace(a, c, b);
      var k := WordLen(t);
      assert k == WordLen(a) by {
        WordLenPrefix(a, [c] + b);
        assert a + [c] + b == a + ([c] + b);
      }
      assert t[..k] == a[..k];
      assert t[k..] == a[k..] + [c] + b;
      FieldsSplit(a[k..], c, b);
    }
  }

  /** Appending text does not change a word run that already ends inside `a`. */
  lemma {:induction false} WordLenPrefix(a: string, t: string)
    requires t != [] && IsSpace(t[0])
    ensures WordLen(a + t) == WordLen(a)
  {
    if a != [] && !IsSpace(a[0]) {
      assert (a + t)[1..] == a[1..] + t;
      WordLenPrefix(a[1..], t);
    } else if a == [] {
      assert (a + t)[0] == t[0];
    }
  }

  /** A single word is its own and only field. */
  lemma FieldsOfWord(w: string)
    requires IsWord(w)
    ensures Fields(w) == [w]
  {
    var k := WordLen(w);
    assert k == |w|;
    assert w[..k] == w;
    assert w[k..] == [];
  }

  /** `Fields` gives no fields exactly for blank input. */
  lemma {:induction false} FieldsBlank(s: string)
    ensures Fields(s) == [] <==> AllIn(s, AsciiSpace)
    decreases |s|
  {
    if s != [] && IsSpace(s[0]) {
      FieldsBlank(s[1..]);
      assert AllIn(s, AsciiSpace) <==> AllIn(s[1..], AsciiSpace) by {
        assert forall k :: 0 <= k < |s| - 1 ==> s[1..][k] == s[k + 1];
      }
    }
  }

  /** Leading and trailing whitespace never changes the fields. */
  lemma {:induction false} FieldsIgnoresOuterSpace(s: string)
    ensures Fields(TrimSpace(s)) == Fields(s)
  {
    var pre, post := TrimWindow(s, AsciiSpace);
    var t := TrimSpace(s);
    FieldsAroundBlank(pre, t, post);
  }

  /** Blank text around `t` contributes no fields. */
  lemma {:induction false} FieldsAroundBlank(pre: string, t: string, post: string)
    requires AllIn(pre, AsciiSpace) && AllIn(post, AsciiSpace)
    ensures Fields(pre + t + post) == Fields(t)
    decreases |pre| + |post|
  {
    if pre != [] {
      assert pre + t + post == [] + [pre[0]] + (pre[1..] + t + post);
      FieldsSplit([], pre[0], pre[1..] + t + post);
      FieldsAroundBlank(pre[1..], t, post);
    } else if post != [] {
      var last := |post| - 1;
      assert pre + t + post == (t + post[..last]) + [post[last]] + [];
      FieldsSplit(t + post[..last], post[last], []);
      assert pre + t + post[..last] == t + post[..last];
      FieldsAroundBlank(pre, t, post[..last]);
    } else {
      assert pre + t + post == t;
    }
  }

  /** Concatenates `ws` with `sep` between neighbours. */
  function Join(ws: seq<string>, sep: string): string {
    if ws == [] then []
    else if |ws| == 1 then ws[0]
    else ws[0] + sep + Join(ws[1..], sep)
  }

  /** Words joined by one whitespace character split back into the same words. */
  lemma {:induction false} FieldsJoin(ws: seq<string>, c: char)
    requires forall i :: 0 <= i < |ws| ==> IsWord(ws[i])
    requires IsSpace(c)
    ensures Fields(Join(ws, [c])) == ws
  {
    if ws == [] {
    } else if |ws| == 1 {
      FieldsOfWord(ws[0]);
    } else {
      FieldsSplit(ws[0], c, Join(ws[1..], [c]));
      FieldsOfWord(ws[0]);
      FieldsJoin(ws[1..], c);
    }
  }
}
