/** Overwriting part of a buffer, as a function on its contents. */
module Splicing {

  /** `s` with the elements from `at` on replaced by `w`. */
  function Splice<T>(s: seq<T>, at: nat, w: seq<T>): (r: seq<T>)
    requires at + |w| <= |s|
    ensures |r| == |s|
  {
    s[..at] + w + s[at + |w|..]
  }

  /** What a slice of the result holds. */
  lemma SpliceSlice<T>(s: seq<T>, at: nat, w: seq<T>, i: nat, j: nat)
    requires at + |w| <= |s| && i <= j <= |s|
    ensures j <= at || at + |w| <= i ==> Splice(s, at, w)[i..j] == s[i..j]
    ensures at <= i && j <= at + |w| ==> Splice(s, at, w)[i..j] == w[i - at..j - at]
    ensures Splice(s, at, w)[at..at + |w|] == w
  {
    var r := Splice(s, at, w);
    assert forall k :: 0 <= k < |s| ==> r[k] == if at <= k < at + |w| then w[k - at] else s[k];
    hide Splice;
    if j <= at || at + |w| <= i {
      assert r[i..j] == s[i..j];
    }
    if at <= i && j <= at + |w| {
      assert r[i..j] == w[i - at..j - at];
    }
    assert r[at..at + |w|] == w;
  }

  /** Overwriting twice at neighbouring places is overwriting once. */
  lemma SpliceAdjacent<T>(s: seq<T>, at: nat, a: seq<T>, b: seq<T>)
    requires at + |a| + |b| <= |s|
    ensures Splice(Splice(s, at, a), at + |a|, b) == Splice(s, at, a + b)
    ensures Splice(Splice(s, at + |a|, b), at, a) == Splice(s, at, a + b)
  {
  }

  /** A later overwrite hides the part of the earlier one that it covers. */
  lemma SpliceCovers<T>(s: seq<T>, at: nat, a: seq<T>, b: seq<T>, c: seq<T>)
    requires |b| <= |c| && at + |a| + |c| <= |s|
    ensures Splice(Splice(s, at, a + b), at + |a|, c) == Splice(s, at, a + c)
  {
  }

  lemma SliceJoins<T>(s: seq<T>, i: nat, j: nat, k: nat)
    requires i <= j <= k <= |s|
    ensures s[i..j] + s[j..k] == s[i..k]
  {
  }

  /** A slice of a slice. */
  lemma SliceOfSlice<T>(s: seq<T>, i: nat, j: nat, a: nat, b: nat)
    requires i <= j <= |s| && a <= b <= j - i
    ensures s[i..j][a..b] == s[i + a..i + b]
  {
    var l, r := s[i..j][a..b], s[i + a..i + b];
    assert |l| == |r| && forall k :: 0 <= k < |l| ==> l[k] == s[i..j][a + k] && r[k] == s[i + a + k];
  }

  /** Overwrite part of a buffer. */
  method Store<T>(buf: array<T>, at: nat, word: seq<T>)
    requires |word| == 2 && at + 2 <= buf.Length
    modifies buf
    ensures buf[..] == Splice(old(buf[..]), at, word)
  {
    buf[at] := word[0];
    buf[at + 1] := word[1];
  }
}
