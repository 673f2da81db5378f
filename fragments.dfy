/** Strings assembled from fixed literal fragments interleaved with inserted
    values, the shape of a template literal: `l0 ${h0} l1 ${h1} ... ln`. */
module Fragments {

  /** `t` occurs inside `s` starting at index `i`. */
  predicate OccursAt(s: string, t: string, i: int)
  {
    0 <= i && i + |t| <= |s| && forall j :: 0 <= j < |t| ==> s[i + j] == t[j]
  }

  /** `t` occurs somewhere inside `s`. */
  ghost predicate Contains(s: string, t: string)
  {
    exists i :: OccursAt(s, t, i)
  }

  /** The total length of a list of strings. */
  function TotalLength(parts: seq<string>): nat
    decreases |parts|
  {
    if parts == [] then 0 else |parts[0]| + TotalLength(parts[1..])
  }

  /** The literals `lits` with the values `holes` inserted between consecutive
      ones, verbatim. */
  function Render(lits: seq<string>, holes: seq<string>): string
    requires |lits| == |holes| + 1
    decreases |holes|
  {
    if holes == [] then lits[0]
    else lits[0] + holes[0] + Render(lits[1..], holes[1..])
  }

  /** Where hole `k` starts in the rendered string. */
  function HoleOffset(lits: seq<string>, holes: seq<string>, k: nat): nat
    requires |lits| == |holes| + 1 && k < |holes|
  {
    |Render(lits[..k + 1], holes[..k])|
  }

  /** Each side of a concatenation occurs in it. */
  lemma ConcatSides(x: string, y: string)
    ensures OccursAt(x + y, x, 0) && OccursAt(x + y, y, |x|)
  {
  }

  /** An occurrence of `a + b` is an occurrence of `a` directly followed by
      one of `b`. */
  lemma OccursAtConcat(s: string, a: string, b: string, i: int)
    ensures OccursAt(s, a + b, i) <==> OccursAt(s, a, i) && OccursAt(s, b, i + |a|)
  {
    if OccursAt(s, a, i) && OccursAt(s, b, i + |a|) {
      forall j | 0 <= j < |a + b| ensures s[i + j] == (a + b)[j] {
        if j >= |a| {
          assert s[(i + |a|) + (j - |a|)] == b[j - |a|];
        }
      }
    }
    if OccursAt(s, a + b, i) {
      forall j | 0 <= j < |a| ensures s[i + j] == a[j] {
        assert s[i + j] == (a + b)[j];
      }
      forall j | 0 <= j < |b| ensures s[i + |a| + j] == b[j] {
        assert s[i + (|a| + j)] == (a + b)[|a| + j];
      }
    }
  }

  /** An occurrence inside an occurrence is an occurrence. */
  lemma OccursTrans(s: string, u: string, t: string, i: int, j: int)
    requires OccursAt(s, u, i) && OccursAt(u, t, j)
    ensures OccursAt(s, t, i + j)
  {
  }

  /** The middle of an occurrence of `pre + mid + post` is an occurrence of
      `mid`. */
  lemma Inner(s: string, i: int, pre: string, mid: string, post: string)
    requires OccursAt(s, pre + mid + post, i)
    ensures OccursAt(s, mid, i + |pre|)
  {
    OccursAtConcat(s, pre + mid, post, i);
    OccursAtConcat(s, pre, mid, i);
  }

  /** With `before` ending in `a` and `after` starting with `b`, the string
      `before + m + after` holds `a + m + b` around its copy of `m`. */
  lemma Window(before: string, m: string, after: string, a: string, b: string)
    requires OccursAt(before, a, |before| - |a|) && OccursAt(after, b, 0)
    ensures OccursAt(before + m + after, a + m + b, |before| - |a|)
    ensures OccursAt(before + m + after, m, |before|)
  {
  }

  /** Nothing is added or dropped: the rendered length is the length of the
      literals plus the length of the inserted values. */
  lemma {:induction false} RenderLength(lits: seq<string>, holes: seq<string>)
    requires |lits| == |holes| + 1
    ensures |Render(lits, holes)| == TotalLength(lits) + TotalLength(holes)
    decreases |holes|
  {
    if holes != [] {
      RenderLength(lits[1..], holes[1..]);
    } else {
      assert lits[1..] == [];
    }
  }

  /** Hole `k` appears verbatim, after the first `k + 1` literals and `k`
      holes and before the rest. */
  lemma {:induction false} RenderSplit(lits: seq<string>, holes: seq<string>, k: nat)
    requires |lits| == |holes| + 1 && k < |holes|
    ensures Render(lits, holes) == Render(lits[..k + 1], holes[..k]) + holes[k] + Render(lits[k + 1..], holes[k + 1..])
    decreases k
  {
    if k == 0 {
      assert lits[..1][1..] == [] && holes[..0] == [];
    } else {
      RenderSplit(lits[1..], holes[1..], k - 1);
      assert lits[1..][..k] == lits[..k + 1][1..];
      assert holes[1..][..k - 1] == holes[..k][1..];
      assert lits[1..][k..] == lits[k + 1..];
      assert holes[1..][k..] == holes[k + 1..];
    }
  }

  /** A rendered template starts with its first literal. */
  lemma RenderStarts(lits: seq<string>, holes: seq<string>)
    requires |lits| == |holes| + 1
    ensures OccursAt(Render(lits, holes), lits[0], 0)
  {
  }

  /** A rendered template ends with its last literal. */
  lemma {:induction false} RenderEnds(lits: seq<string>, holes: seq<string>)
    requires |lits| == |holes| + 1
    ensures OccursAt(Render(lits, holes), lits[|lits| - 1], |Render(lits, holes)| - |lits[|lits| - 1]|)
    decreases |holes|
  {
    if holes != [] {
      var last, rest := lits[|lits| - 1], Render(lits[1..], holes[1..]);
      RenderEnds(lits[1..], holes[1..]);
      assert lits[1..][|lits[1..]| - 1] == last;
      ConcatSides(lits[0] + holes[0], rest);
      OccursTrans(Render(lits, holes), rest, last, |lits[0] + holes[0]|, |rest| - |last|);
    }
  }

  /** Hole `k` appears verbatim at its offset, directly between literal `k`
      and literal `k + 1`. */
  lemma HoleAt(lits: seq<string>, holes: seq<string>, k: nat)
    requires |lits| == |holes| + 1 && k < |holes|
    ensures HoleOffset(lits, holes, k) >= |lits[k]|
    ensures OccursAt(Render(lits, holes), lits[k] + holes[k] + lits[k + 1], HoleOffset(lits, holes, k) - |lits[k]|)
    ensures OccursAt(Render(lits, holes), holes[k], HoleOffset(lits, holes, k))
  {
    var before, after := Render(lits[..k + 1], holes[..k]), Render(lits[k + 1..], holes[k + 1..]);
    RenderSplit(lits, holes, k);
    RenderEnds(lits[..k + 1], holes[..k]);
    assert lits[..k + 1][k] == lits[k];
    RenderStarts(lits[k + 1..], holes[k + 1..]);
    Window(before, holes[k], after, lits[k], lits[k + 1]);
  }

  /** Regrouping five concatenated strings around the middle three. */
  lemma Regroup(pre: string, open: string, m: string, close: string, post: string)
    ensures (pre + open) + m + (close + post) == pre + (open + m + close) + post
  {
  }

  /** Where literal `k` ends with `open` and literal `k + 1` starts with
      `close`, hole `k` appears verbatim between `open` and `close`. */
  lemma FramedHole(lits: seq<string>, holes: seq<string>, k: nat, pre: string, open: string, close: string, post: string)
    requires |lits| == |holes| + 1 && k < |holes|
    requires lits[k] == pre + open && lits[k + 1] == close + post
    ensures HoleOffset(lits, holes, k) >= |open|
    ensures OccursAt(Render(lits, holes), open + holes[k] + close, HoleOffset(lits, holes, k) - |open|)
  {
    var mid := open + holes[k] + close;
    HoleAt(lits, holes, k);
    Regroup(pre, open, holes[k], close, post);
    Inner(Render(lits, holes), HoleOffset(lits, holes, k) - |lits[k]|, pre, mid, post);
  }

  /** Consecutive holes are separated by exactly the literal between them. */
  lemma {:induction false} HoleOffsetNext(lits: seq<string>, holes: seq<string>, k: nat)
    requires |lits| == |holes| + 1 && k + 1 < |holes|
    ensures HoleOffset(lits, holes, k + 1) == HoleOffset(lits, holes, k) + |holes[k]| + |lits[k + 1]|
  {
    var l, h := lits[..k + 2], holes[..k + 1];
    RenderSplit(l, h, k);
    assert l[..k + 1] == lits[..k + 1] && h[..k] == holes[..k];
    assert l[k + 1..] == [lits[k + 1]] && h[k + 1..] == [];
  }

  /** An occurrence of `a + m + b` followed directly by one of `n` gives an
      occurrence of `m + b + n`. */
  lemma Chain(s: string, i: int, a: string, m: string, b: string, n: string)
    requires OccursAt(s, a + m + b, i) && OccursAt(s, n, i + |a| + |m| + |b|)
    ensures OccursAt(s, m + b + n, i + |a|)
  {
    OccursAtConcat(s, a + m, b, i);
    OccursAtConcat(s, a, m, i);
    OccursAtConcat(s, m, b, i + |a|);
    OccursAtConcat(s, m + b, n, i + |a|);
  }

  /** Between consecutive holes there is exactly the literal between them:
      hole `k`, literal `k + 1` and hole `k + 1` occur contiguously. */
  lemma HoleGap(lits: seq<string>, holes: seq<string>, k: nat)
    requires |lits| == |holes| + 1 && k + 1 < |holes|
    ensures OccursAt(Render(lits, holes), holes[k] + lits[k + 1] + holes[k + 1], HoleOffset(lits, holes, k))
  {
    var o := HoleOffset(lits, holes, k);
    HoleAt(lits, holes, k);
    HoleAt(lits, holes, k + 1);
    HoleOffsetNext(lits, holes, k);
    Chain(Render(lits, holes), o - |lits[k]|, lits[k], holes[k], lits[k + 1], holes[k + 1]);
  }

  /** Unfolding one literal and one hole off the front of what remains. */
  lemma RenderStep(lits: seq<string>, holes: seq<string>, k: nat, done: string)
    requires |lits| == |holes| + 1 && k < |holes|
    requires Render(lits, holes) == done + Render(lits[k..], holes[k..])
    ensures Render(lits, holes) == done + lits[k] + holes[k] + Render(lits[k + 1..], holes[k + 1..])
  {
  }

  /** A template of eight literals and seven holes renders to their plain
      left-to-right concatenation. */
  lemma RenderSeven(lits: seq<string>, holes: seq<string>)
    requires |lits| == 8 && |holes| == 7
    ensures Render(lits, holes)
         == lits[0] + holes[0] + lits[1] + holes[1] + lits[2] + holes[2] + lits[3] + holes[3]
          + lits[4] + holes[4] + lits[5] + holes[5] + lits[6] + holes[6] + lits[7]
  {
    var l, h := lits, holes;
    assert l[0..] == l && h[0..] == h;
    RenderStep(l, h, 0, []);
    RenderStep(l, h, 1, l[0] + h[0]);
    RenderStep(l, h, 2, l[0] + h[0] + l[1] + h[1]);
    RenderStep(l, h, 3, l[0] + h[0] + l[1] + h[1] + l[2] + h[2]);
    RenderStep(l, h, 4, l[0] + h[0] + l[1] + h[1] + l[2] + h[2] + l[3] + h[3]);
    RenderStep(l, h, 5, l[0] + h[0] + l[1] + h[1] + l[2] + h[2] + l[3] + h[3] + l[4] + h[4]);
    RenderStep(l, h, 6, l[0] + h[0] + l[1] + h[1] + l[2] + h[2] + l[3] + h[3] + l[4] + h[4] + l[5] + h[5]);
    assert l[7..][0] == l[7] && h[7..] == [];
  }
}
