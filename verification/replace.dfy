/** Python's `s.replace(target, replacement)` for a non-empty `target`:
    every occurrence of `target`, found left to right without overlap, is
    replaced by `replacement`. */
module PyReplace {
  import opened PyStrings

  function ReplaceAll(s: string, target: string, replacement: string): string
    requires target != []
    decreases |s|
  {
    if HasPrefix(s, target) then replacement + ReplaceAll(s[|target|..], target, replacement)
    else if s == [] then []
    else [s[0]] + ReplaceAll(s[1..], target, replacement)
  }

  /** The pieces left between the occurrences of `target` that `ReplaceAll`
      replaces, in order. */
  function Split(s: string, target: string): (pieces: seq<string>)
    requires target != []
    ensures |pieces| >= 1
    decreases |s|
  {
    if HasPrefix(s, target) then [[]] + Split(s[|target|..], target)
    else if s == [] then [[]]
    else
      var rest := Split(s[1..], target);
      [[s[0]] + rest[0]] + rest[1..]
  }

  /** The pieces glued together with `sep` between each two. */
  function Join(pieces: seq<string>, sep: string): string
    requires |pieces| >= 1
  {
    if |pieces| == 1 then pieces[0] else pieces[0] + sep + Join(pieces[1..], sep)
  }

  /** No occurrence of `target` starts inside `p`, even one that runs on into
      the `target` that follows it: the next match after `p` is the leftmost. */
  predicate NoEarlierMatch(p: string, target: string) {
    forall k :: 0 <= k < |p| ==> !HasPrefix((p + target)[k..], target)
  }

  /** The decomposition that Python's scan produces: every piece but the
      last is followed by the leftmost match, and the last holds none. */
  predicate LeftmostPieces(pieces: seq<string>, target: string) {
    && |pieces| >= 1
    && (forall i :: 0 <= i < |pieces| - 1 ==> NoEarlierMatch(pieces[i], target))
    && !Contains(pieces[|pieces| - 1], target)
  }

  lemma JoinExtendFirst(c: string, pieces: seq<string>, sep: string)
    requires |pieces| >= 1
    ensures Join([c + pieces[0]] + pieces[1..], sep) == c + Join(pieces, sep)
  {
    var ps := [c + pieces[0]] + pieces[1..];
    if |pieces| > 1 {
      assert ps[1..] == pieces[1..];
    }
  }

  /** A match at the front becomes an empty first piece. */
  lemma JoinAfterMatch(pieces: seq<string>, sep: string)
    requires |pieces| >= 1
    ensures Join([[]] + pieces, sep) == sep + Join(pieces, sep)
  {
    assert ([[]] + pieces)[1..] == pieces;
  }

  /** Gluing the pieces back with `target` gives the original string. */
  lemma {:induction false} SplitJoin(s: string, target: string)
    requires target != []
    ensures Join(Split(s, target), target) == s
    decreases |s|
  {
    if HasPrefix(s, target) {
      var tail := s[|target|..];
      SplitJoin(tail, target);
      JoinAfterMatch(Split(tail, target), target);
      assert s == target + tail;
    } else if s != [] {
      var rest := Split(s[1..], target);
      SplitJoin(s[1..], target);
      JoinExtendFirst([s[0]], rest, target);
      assert s == [s[0]] + s[1..];
    }
  }

  /** Replacing is splitting at the occurrences and gluing with `replacement`. */
  lemma {:induction false} ReplaceIsSplitJoin(s: string, target: string, replacement: string)
    requires target != []
    ensures ReplaceAll(s, target, replacement) == Join(Split(s, target), replacement)
    decreases |s|
  {
    if HasPrefix(s, target) {
      ReplaceIsSplitJoin(s[|target|..], target, replacement);
    } else if s != [] {
      ReplaceIsSplitJoin(s[1..], target, replacement);
      JoinExtendFirst([s[0]], Split(s[1..], target), replacement);
    }
  }

  lemma PrefixOfPrefix(s: string, p: string, target: string)
    requires HasPrefix(s, p) && HasPrefix(p, target)
    ensures HasPrefix(s, target)
  {
    assert s[..|target|] == s[..|p|][..|target|];
  }

  lemma ShiftedSuffix(c: char, p: string, target: string, k: nat)
    requires 1 <= k <= |p| + 1
    ensures (([c] + p) + target)[k..] == (p + target)[k - 1..]
  {
  }

  lemma PrefixOfConcat(a: string, b: string)
    ensures HasPrefix(a + b, a)
  {
    assert (a + b)[..|a|] == a;
  }

  /** A string holds `target` nowhere when it does not start with it and
      its tail holds it nowhere. */
  lemma NotContainsCons(s: string, target: string)
    requires s != [] && !HasPrefix(s, target) && !Contains(s[1..], target)
    ensures !Contains(s, target)
  {
    forall k | 0 <= k <= |s| ensures !HasPrefix(s[k..], target) {
      if k > 0 {
        assert s[k..] == s[1..][k - 1..];
      }
    }
  }

  /** Putting back the first character of `s` in front of a piece keeps the
      match after it leftmost, since `s` does not start with a match. */
  lemma NoEarlierMatchCons(s: string, p: string, target: string)
    requires s != [] && !HasPrefix(s, target)
    requires HasPrefix(s, [s[0]] + p + target) && NoEarlierMatch(p, target)
    ensures NoEarlierMatch([s[0]] + p, target)
  {
    var first := [s[0]] + p;
    forall k | 0 <= k < |first| ensures !HasPrefix((first + target)[k..], target) {
      if k == 0 {
        if HasPrefix(first + target, target) {
          PrefixOfPrefix(s, first + target, target);
        }
      } else {
        ShiftedSuffix(s[0], p, target, k);
      }
    }
  }

  lemma LeftmostAfterMatch(rest: seq<string>, target: string)
    requires target != [] && LeftmostPieces(rest, target)
    ensures LeftmostPieces([[]] + rest, target)
  {
    var ps := [[]] + rest;
    forall i | 0 <= i < |ps| - 1 ensures NoEarlierMatch(ps[i], target) {
      if i > 0 {
        assert ps[i] == rest[i - 1];
      }
    }
    assert ps[|ps| - 1] == rest[|rest| - 1];
  }

  lemma LeftmostNewFirst(rest: seq<string>, first: string, target: string)
    requires |rest| > 1 && LeftmostPieces(rest, target) && NoEarlierMatch(first, target)
    ensures LeftmostPieces([first] + rest[1..], target)
  {
    var ps := [first] + rest[1..];
    forall i | 0 <= i < |ps| - 1 ensures NoEarlierMatch(ps[i], target) {
      if i > 0 {
        assert ps[i] == rest[i];
      }
    }
    assert ps[|ps| - 1] == rest[|rest| - 1];
  }

  /** The step of `SplitIsLeftmost` where `s` does not start with a match
      and its first character joins the first piece of its tail. */
  lemma LeftmostCons(s: string, target: string)
    requires target != [] && s != [] && !HasPrefix(s, target)
    requires LeftmostPieces(Split(s[1..], target), target)
    requires Join(Split(s[1..], target), target) == s[1..]
    ensures LeftmostPieces(Split(s, target), target)
  {
    var rest := Split(s[1..], target);
    var first := [s[0]] + rest[0];
    assert Split(s, target) == [first] + rest[1..];
    if |rest| == 1 {
      assert first == s;
      NotContainsCons(s, target);
    } else {
      LeftmostConsMatch(s, rest, target);
    }
  }

  lemma LeftmostConsMatch(s: string, rest: seq<string>, target: string)
    requires s != [] && !HasPrefix(s, target)
    requires |rest| > 1 && LeftmostPieces(rest, target) && Join(rest, target) == s[1..]
    ensures LeftmostPieces([[s[0]] + rest[0]] + rest[1..], target)
  {
    var first := [s[0]] + rest[0];
    assert s == [s[0]] + s[1..];
    assert s == first + target + Join(rest[1..], target);
    PrefixOfConcat(first + target, Join(rest[1..], target));
    NoEarlierMatchCons(s, rest[0], target);
    LeftmostNewFirst(rest, first, target);
  }

  /** The pieces are the ones Python's left-to-right scan leaves: each piece
      before a replaced occurrence holds no earlier match, and the last
      piece holds no occurrence at all. */
  lemma {:induction false} SplitIsLeftmost(s: string, target: string)
    requires target != []
    ensures LeftmostPieces(Split(s, target), target)
    decreases |s|
  {
    if HasPrefix(s, target) {
      var tail := s[|target|..];
      SplitIsLeftmost(tail, target);
      LeftmostAfterMatch(Split(tail, target), target);
    } else if s == [] {
      assert !HasPrefix(s[0..], target);
    } else {
      SplitIsLeftmost(s[1..], target);
      SplitJoin(s[1..], target);
      LeftmostCons(s, target);
    }
  }

  /** A string in which `target` does not occur is left unchanged. */
  lemma {:induction false} ReplaceAbsent(s: string, target: string, replacement: string)
    requires target != [] && !Contains(s, target)
    ensures ReplaceAll(s, target, replacement) == s
    decreases |s|
  {
    if s != [] {
      assert !HasPrefix(s[0..], target);
      assert s[0..] == s;
      assert !Contains(s[1..], target) by {
        forall k | 0 <= k <= |s| - 1 ensures !HasPrefix(s[1..][k..], target) {
          assert s[1..][k..] == s[k + 1..];
        }
      }
      ReplaceAbsent(s[1..], target, replacement);
    }
  }

  /** `ReplaceAll` as Python documents it: `s` is cut at the occurrences of
      `target` found by a left-to-right scan, and the same pieces are glued
      back with `replacement`. */
  lemma ReplaceSpec(s: string, target: string, replacement: string)
    requires target != []
    ensures var pieces := Split(s, target);
      && Join(pieces, target) == s
      && LeftmostPieces(pieces, target)
      && ReplaceAll(s, target, replacement) == Join(pieces, replacement)
  {
    SplitJoin(s, target);
    SplitIsLeftmost(s, target);
    ReplaceIsSplitJoin(s, target, replacement);
  }
}
