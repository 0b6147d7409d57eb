/** The few functions of Go's `strings` package that the request
    middleware and the configuration parser rely on, over `seq<char>`. */
module Strings {

  /** `unicode.IsSpace`: the ASCII blanks and the other Unicode
      White_Space code points. */
  predicate IsSpace(c: char) {
    || c == '\t' || c == '\n' || c == '\U{000B}' || c == '\U{000C}' || c == '\r' || c == ' '
    || c == '\U{0085}' || c == '\U{00A0}' || c == '\U{1680}'
    || ('\U{2000}' <= c <= '\U{200A}')
    || c == '\U{2028}' || c == '\U{2029}' || c == '\U{202F}' || c == '\U{205F}' || c == '\U{3000}'
  }

  /** A set of characters to trim: `strings.TrimSpace`'s blanks or the
      double quote of `strings.Trim(v, "\"")`. */
  datatype Cutset = Cutset(chars: set<char>)

  const Blanks := Cutset({
    '\t', '\n', '\U{000B}', '\U{000C}', '\r', ' ', '\U{0085}', '\U{00A0}', '\U{1680}',
    '\U{2000}', '\U{2001}', '\U{2002}', '\U{2003}', '\U{2004}', '\U{2005}',
    '\U{2006}', '\U{2007}', '\U{2008}', '\U{2009}', '\U{200A}',
    '\U{2028}', '\U{2029}', '\U{202F}', '\U{205F}', '\U{3000}'})

  const Quotes := Cutset({'"'})

  predicate Cuts(cut: Cutset, c: char) {
    c in cut.chars
  }

  /** The blanks cutset holds exactly the characters `unicode.IsSpace` accepts. */
  lemma BlanksAreSpaces(c: char)
    ensures Cuts(Blanks, c) <==> IsSpace(c)
  {
    if '\U{2000}' <= c <= '\U{200A}' {
      assert c in Blanks.chars by {
        var k := c as int - 0x2000;
        assert 0 <= k <= 10;
        if k == 0 { assert c == '\U{2000}'; } else if k == 1 { assert c == '\U{2001}'; }
        else if k == 2 { assert c == '\U{2002}'; } else if k == 3 { assert c == '\U{2003}'; }
        else if k == 4 { assert c == '\U{2004}'; } else if k == 5 { assert c == '\U{2005}'; }
        else if k == 6 { assert c == '\U{2006}'; } else if k == 7 { assert c == '\U{2007}'; }
        else if k == 8 { assert c == '\U{2008}'; } else if k == 9 { assert c == '\U{2009}'; }
        else { assert c == '\U{200A}'; }
      }
    }
  }

  /** Neither end of `s` is in `cut`. */
  predicate Trimmed(s: string, cut: Cutset) {
    s == [] || (!Cuts(cut, s[0]) && !Cuts(cut, s[|s| - 1]))
  }

  /** Drops every leading character that is in `cut`. */
  function TrimLeft(s: string, cut: Cutset): (r: string)
    ensures |r| <= |s|
    ensures r == [] || !Cuts(cut, r[0])
  {
    if s == [] || !Cuts(cut, s[0]) then s else TrimLeft(s[1..], cut)
  }

  /** Drops every trailing character that is in `cut`. */
  function TrimRight(s: string, cut: Cutset): (r: string)
    ensures |r| <= |s|
    ensures r == [] || !Cuts(cut, r[|r| - 1])
  {
    if s == [] || !Cuts(cut, s[|s| - 1]) then s else TrimRight(s[..|s| - 1], cut)
  }

  /** `strings.Trim(s, cutset)`: both ends, the characters of `cut`. */
  function Trim(s: string, cut: Cutset): (r: string)
    ensures Trimmed(r, cut)
  {
    var l := TrimLeft(s, cut);
    TrimRightPrefix(l, cut);
    TrimRight(l, cut)
  }

  /** What `TrimLeft` keeps is a suffix of `s`. */
  lemma {:induction false} TrimLeftSuffix(s: string, cut: Cutset)
    ensures TrimLeft(s, cut) == s[|s| - |TrimLeft(s, cut)|..]
    decreases |s|
  {
    if s != [] && Cuts(cut, s[0]) {
      TrimLeftSuffix(s[1..], cut);
      assert s[1..][|s| - 1 - |TrimLeft(s[1..], cut)|..] == s[|s| - |TrimLeft(s[1..], cut)|..];
    }
  }

  /** What `TrimRight` keeps is a prefix of `s`. */
  lemma {:induction false} TrimRightPrefix(s: string, cut: Cutset)
    ensures TrimRight(s, cut) == s[..|TrimRight(s, cut)|]
    decreases |s|
  {
    if s != [] && Cuts(cut, s[|s| - 1]) {
      TrimRightPrefix(s[..|s| - 1], cut);
      assert s[..|s| - 1][..|TrimRight(s[..|s| - 1], cut)|] == s[..|TrimRight(s[..|s| - 1], cut)|];
    }
  }

  /** `TrimLeft` removes nothing but cut characters. */
  lemma {:induction false} TrimLeftDropsOnlyCuts(s: string, cut: Cutset)
    ensures forall i :: 0 <= i < |s| - |TrimLeft(s, cut)| ==> Cuts(cut, s[i])
    decreases |s|
  {
    if s != [] && Cuts(cut, s[0]) {
      TrimLeftDropsOnlyCuts(s[1..], cut);
      forall i | 1 <= i < |s| - |TrimLeft(s, cut)| ensures Cuts(cut, s[i]) {
        assert s[i] == s[1..][i - 1];
      }
    }
  }

  /** `TrimRight` removes nothing but cut characters. */
  lemma {:induction false} TrimRightDropsOnlyCuts(s: string, cut: Cutset)
    ensures forall i :: |TrimRight(s, cut)| <= i < |s| ==> Cuts(cut, s[i])
    decreases |s|
  {
    if s != [] && Cuts(cut, s[|s| - 1]) {
      TrimRightDropsOnlyCuts(s[..|s| - 1], cut);
      forall i | |TrimRight(s, cut)| <= i < |s| - 1 ensures Cuts(cut, s[i]) {
        assert s[i] == s[..|s| - 1][i];
      }
    }
  }

  /** What `Trim` keeps is one contiguous part of `s`. */
  lemma TrimIsSlice(s: string, cut: Cutset)
    ensures var r, lo := Trim(s, cut), |s| - |TrimLeft(s, cut)|;
      lo + |r| <= |s| && r == s[lo..lo + |r|]
  {
    var l := TrimLeft(s, cut);
    TrimLeftSuffix(s, cut);
    TrimRightPrefix(l, cut);
    SliceOfSuffix(s, |s| - |l|, l, TrimRight(l, cut));
  }

  /** A prefix of a suffix is a slice. */
  lemma SliceOfSuffix(s: string, lo: nat, l: string, r: string)
    requires lo <= |s| && l == s[lo..]
    requires |r| <= |l| && r == l[..|r|]
    ensures lo + |r| <= |s| && r == s[lo..lo + |r|]
  {
  }

  /** Everything after what `Trim` keeps is a cut character. */
  lemma TrimDropsOnlyTrailingCuts(s: string, cut: Cutset)
    ensures var r, lo := Trim(s, cut), |s| - |TrimLeft(s, cut)|;
      forall i :: lo + |r| <= i < |s| ==> Cuts(cut, s[i])
  {
    var l := TrimLeft(s, cut);
    var lo := |s| - |l|;
    TrimLeftSuffix(s, cut);
    TrimRightDropsOnlyCuts(l, cut);
    forall i | lo + |TrimRight(l, cut)| <= i < |s| ensures Cuts(cut, s[i]) {
      assert s[i] == l[i - lo];
    }
  }

  /** `Trim` keeps one contiguous part of `s`, starting at `lo`: everything
      before and after it is a cut character, and the part itself starts
      and ends with a kept character. So exactly the leading and trailing
      run of cut characters is removed. */
  lemma TrimDropsOnlyCuts(s: string, cut: Cutset)
    ensures var r, lo := Trim(s, cut), |s| - |TrimLeft(s, cut)|;
      && lo + |r| <= |s| && r == s[lo..lo + |r|]
      && (forall i :: 0 <= i < lo ==> Cuts(cut, s[i]))
      && (forall i :: lo + |r| <= i < |s| ==> Cuts(cut, s[i]))
  {
    TrimIsSlice(s, cut);
    TrimLeftDropsOnlyCuts(s, cut);
    TrimDropsOnlyTrailingCuts(s, cut);
  }

  /** Every character of `w` is in `cut`. */
  predicate AllCut(w: string, cut: Cutset) {
    forall i :: 0 <= i < |w| ==> Cuts(cut, w[i])
  }

  /** Cut characters in front of `s` make no difference to `TrimLeft`. */
  lemma {:induction false} TrimLeftPad(w: string, s: string, cut: Cutset)
    requires AllCut(w, cut)
    ensures TrimLeft(w + s, cut) == TrimLeft(s, cut)
    decreases |w|
  {
    if w == [] {
      assert w + s == s;
    } else {
      assert (w + s)[0] == w[0];
      assert (w + s)[1..] == w[1..] + s;
      TrimLeftPad(w[1..], s, cut);
    }
  }

  /** Cut characters after `s` make no difference to `TrimRight`. */
  lemma {:induction false} TrimRightPad(s: string, w: string, cut: Cutset)
    requires AllCut(w, cut)
    ensures TrimRight(s + w, cut) == TrimRight(s, cut)
    decreases |w|
  {
    if w == [] {
      assert s + w == s;
    } else {
      assert (s + w)[|s + w| - 1] == w[|w| - 1];
      assert (s + w)[..|s + w| - 1] == s + w[..|w| - 1];
      TrimRightPad(s, w[..|w| - 1], cut);
    }
  }

  /** Once `s` has a kept character, text after it is not touched by
      `TrimLeft`. */
  lemma {:induction false} TrimLeftAppend(s: string, t: string, cut: Cutset)
    requires TrimLeft(s, cut) != []
    ensures TrimLeft(s + t, cut) == TrimLeft(s, cut) + t
    decreases |s|
  {
    assert s != [];
    if Cuts(cut, s[0]) {
      TrimLeftDrop(s, t, cut);
      TrimLeftAppend(s[1..], t, cut);
    } else {
      TrimLeftKeep(s, t, cut);
    }
  }

  lemma TrimLeftDrop(s: string, t: string, cut: Cutset)
    requires s != [] && Cuts(cut, s[0])
    ensures TrimLeft(s, cut) == TrimLeft(s[1..], cut)
    ensures TrimLeft(s + t, cut) == TrimLeft(s[1..] + t, cut)
  {
    assert (s + t)[0] == s[0];
    assert (s + t)[1..] == s[1..] + t;
  }

  lemma TrimLeftKeep(s: string, t: string, cut: Cutset)
    requires s != [] && !Cuts(cut, s[0])
    ensures TrimLeft(s, cut) == s
    ensures TrimLeft(s + t, cut) == s + t
  {
    assert (s + t)[0] == s[0];
  }

  /** Cut characters on either side of `s` make no difference to `Trim`. */
  lemma TrimPadded(w1: string, s: string, w2: string, cut: Cutset)
    requires AllCut(w1, cut) && AllCut(w2, cut)
    ensures Trim(w1 + s + w2, cut) == Trim(s, cut)
  {
    Associate3(w1, s, w2);
    TrimLeftPad(w1, s + w2, cut);
    TrimSuffixPad(s, w2, cut);
  }

  lemma Associate3(a: string, b: string, c: string)
    ensures a + b + c == a + (b + c)
  {
  }

  /** Cut characters after `s` make no difference to `Trim`. */
  lemma TrimSuffixPad(s: string, w: string, cut: Cutset)
    requires AllCut(w, cut)
    ensures Trim(s + w, cut) == Trim(s, cut)
  {
    if TrimLeft(s, cut) != [] {
      TrimLeftAppend(s, w, cut);
      TrimRightPad(TrimLeft(s, cut), w, cut);
    } else {
      TrimLeftDropsOnlyCuts(s, cut);
      AllCutAppend(s, w, cut);
      TrimLeftAll(s + w, cut);
    }
  }

  lemma AllCutAppend(a: string, b: string, cut: Cutset)
    requires AllCut(a, cut) && AllCut(b, cut)
    ensures AllCut(a + b, cut)
  {
    forall i | 0 <= i < |a + b| ensures Cuts(cut, (a + b)[i]) {
      if i < |a| {
        assert (a + b)[i] == a[i];
      } else {
        assert (a + b)[i] == b[i - |a|];
      }
    }
  }

  /** `TrimLeft` removes a run of cut characters entirely. */
  lemma {:induction false} TrimLeftAll(w: string, cut: Cutset)
    requires AllCut(w, cut)
    ensures TrimLeft(w, cut) == []
    decreases |w|
  {
    if w != [] {
      assert AllCut(w[1..], cut) by {
        forall i | 0 <= i < |w[1..]| ensures Cuts(cut, w[1..][i]) {
          assert w[1..][i] == w[i + 1];
        }
      }
      TrimLeftAll(w[1..], cut);
    }
  }

  /** The cut characters `TrimLeft` removes. */
  lemma LeftPadOf(s: string, cut: Cutset) returns (w: string)
    ensures s == w + TrimLeft(s, cut) && AllCut(w, cut)
  {
    var l0 := TrimLeft(s, cut);
    w := s[..|s| - |l0|];
    TrimLeftSuffix(s, cut);
    TrimLeftDropsOnlyCuts(s, cut);
    forall i | 0 <= i < |w| ensures Cuts(cut, w[i]) {
      assert w[i] == s[i];
    }
    assert s == w + s[|s| - |l0|..];
  }

  /** The cut characters `TrimRight` removes. */
  lemma RightPadOf(s: string, cut: Cutset) returns (w: string)
    ensures s == TrimRight(s, cut) + w && AllCut(w, cut)
  {
    var r0 := TrimRight(s, cut);
    w := s[|r0|..];
    TrimRightPrefix(s, cut);
    TrimRightDropsOnlyCuts(s, cut);
    forall i | 0 <= i < |w| ensures Cuts(cut, w[i]) {
      assert w[i] == s[|r0| + i];
    }
    assert s == s[..|r0|] + w;
  }

  lemma Regroup(a: string, b: string, c: string, d: string, e: string)
    ensures (a + b) + c + (d + e) == a + (b + c + d) + e
  {
  }

  lemma Associate(a: string, b: string, c: string, d: string, e: string)
    ensures a + (b + c) + d + e == a + b + (c + d + e)
  {
  }

  /** Trimming a text with a kept character `c` in it trims the part
      before `c` at its front only and the part after `c` at its back
      only. */
  lemma TrimAround(lhs: string, c: char, rhs: string, cut: Cutset)
    requires !Cuts(cut, c)
    ensures Trim(lhs + [c] + rhs, cut) == TrimLeft(lhs, cut) + [c] + TrimRight(rhs, cut)
  {
    var l0, r0 := TrimLeft(lhs, cut), TrimRight(rhs, cut);
    var mid := l0 + [c] + r0;
    assert Trim(lhs + [c] + rhs, cut) == Trim(mid, cut) by {
      var w1 := LeftPadOf(lhs, cut);
      var w2 := RightPadOf(rhs, cut);
      Regroup(w1, l0, [c], r0, w2);
      TrimPadded(w1, mid, w2, cut);
    }
    assert Trim(mid, cut) == mid by {
      KeptEnds(l0, c, r0, cut);
      TrimUnchanged(mid, cut);
    }
  }

  lemma KeptEnds(l: string, c: char, r: string, cut: Cutset)
    requires !Cuts(cut, c)
    requires l == [] || !Cuts(cut, l[0])
    requires r == [] || !Cuts(cut, r[|r| - 1])
    ensures Trimmed(l + [c] + r, cut)
  {
    var m := l + [c] + r;
    assert m[0] == if l == [] then c else l[0];
    assert m[|m| - 1] == if r == [] then c else r[|r| - 1];
  }

  /** A run of cut characters holds no kept character. */
  lemma AllCutKeepsOut(w: string, cut: Cutset, c: char)
    requires AllCut(w, cut) && !Cuts(cut, c)
    ensures c !in w
  {
  }

  /** Neither `=` nor the double quote is a blank. */
  lemma SeparatorsAreNotBlanks()
    ensures !Cuts(Blanks, '=') && !Cuts(Blanks, '"')
  {
  }

  /** Trimming the front first changes nothing, and the trimmed text is
      empty, or starts, exactly where the front trim left it. */
  lemma TrimAfterTrimLeft(s: string, cut: Cutset)
    ensures Trim(TrimLeft(s, cut), cut) == Trim(s, cut)
    ensures TrimLeft(s, cut) == [] <==> Trim(s, cut) == []
    ensures TrimLeft(s, cut) != [] ==> Trim(s, cut)[0] == TrimLeft(s, cut)[0]
  {
    var l0 := TrimLeft(s, cut);
    assert TrimLeft(l0, cut) == l0;
    var r := TrimRight(l0, cut);
    if l0 != [] {
      TrimRightDropsOnlyCuts(l0, cut);
      assert r[0] == l0[0] by { TrimRightPrefix(l0, cut); }
    }
  }

  /** Trimming the back first changes nothing. */
  lemma TrimAfterTrimRight(s: string, cut: Cutset)
    ensures Trim(TrimRight(s, cut), cut) == Trim(s, cut)
  {
    var w := RightPadOf(s, cut);
    TrimSuffixPad(TrimRight(s, cut), w, cut);
  }

  /** `strings.Trim(`"` + v + `"`, `"`)` gives back `v` when `v` has no
      quote at either end. */
  lemma TrimQuoted(v: string)
    requires Trimmed(v, Quotes)
    ensures Trim("\"" + v + "\"", Quotes) == v
  {
    TrimPadded("\"", v, "\"", Quotes);
    TrimUnchanged(v, Quotes);
  }

  /** Trimming a string whose ends are already kept leaves it alone. */
  lemma TrimUnchanged(s: string, cut: Cutset)
    requires Trimmed(s, cut)
    ensures Trim(s, cut) == s
  {
  }

  /** `strings.TrimSpace`. */
  function TrimSpace(s: string): (r: string)
    ensures Trimmed(r, Blanks)
  {
    Trim(s, Blanks)
  }

  /** Trimming only removes characters. */
  lemma TrimKeepsOut(s: string, cut: Cutset, c: char)
    ensures c !in s ==> c !in Trim(s, cut)
  {
    var l := TrimLeft(s, cut);
    TrimLeftSuffix(s, cut);
    TrimRightPrefix(l, cut);
  }

  /** `strings.Index(s, string(c))`: the first position of `c`, or -1. */
  function IndexOf(s: string, c: char): (i: int)
    ensures -1 <= i < |s|
    ensures i == -1 <==> c !in s
    ensures 0 <= i ==> s[i] == c && c !in s[..i]
  {
    if s == [] then -1
    else if s[0] == c then 0
    else var j := IndexOf(s[1..], c); if j == -1 then -1 else j + 1
  }

  /** The first `c` of `a + [c] + b`, when `a` has none, is right after `a`. */
  lemma {:induction false} IndexOfFirst(a: string, c: char, b: string)
    requires c !in a
    ensures IndexOf(a + [c] + b, c) == |a|
    decreases |a|
  {
    var s := a + [c] + b;
    if a != [] {
      assert s[0] == a[0];
      assert s[1..] == a[1..] + [c] + b;
      IndexOfFirst(a[1..], c, b);
    }
  }

  /** The `before` part of `strings.Cut(s, string(sep))`: everything up to
      the first `sep`, or all of `s` when there is none. */
  function CutBefore(s: string, sep: char): (r: string)
    ensures sep !in r
    ensures sep in s ==> |r| < |s| && r + [sep] == s[..|r| + 1]
    ensures sep !in s ==> r == s
  {
    var i := IndexOf(s, sep);
    if i < 0 then s else s[..i]
  }

  /** `strings.HasPrefix`. */
  predicate HasPrefix(s: string, prefix: string)
    ensures HasPrefix(s, prefix) <==>
      |prefix| <= |s| && forall i :: 0 <= i < |prefix| ==> s[i] == prefix[i]
  {
    |prefix| <= |s| && s[..|prefix|] == prefix
  }

  /** A one-character prefix is the first character. */
  lemma HasPrefixChar(s: string, c: char)
    ensures HasPrefix(s, [c]) <==> s != [] && s[0] == c
  {
    if s != [] && s[0] == c {
      assert s[..1] == [c];
    }
  }
}
