/** `MutableCollection.move(fromOffsets:toOffset:)` from the Swift standard
    library, which every reordering in the app goes through. The destination is
    an offset into the ORIGINAL collection (0 through its count); the moved
    elements keep their relative order and land just before the element that
    was at the destination, so moving {0} to 3 in [A, B, C] gives [B, C, A]
    and moving {0} to 2 gives [B, A, C]. */
module ListMove {

  /** The offsets and destination the library accepts (it traps on others). */
  predicate ValidMove(n: int, moved: set<int>, dest: int) {
    (forall i :: i in moved ==> 0 <= i < n) && 0 <= dest <= n
  }

  /** The elements `s[k]`, `lo <= k < hi`, whose offset is in `moved` exactly
      when `inMoved` holds, in their original order. */
  function Pick<T>(s: seq<T>, moved: set<int>, lo: int, hi: int, inMoved: bool): (r: seq<T>)
    requires 0 <= lo <= hi <= |s|
    ensures |r| <= hi - lo
    decreases hi - lo
  {
    if lo == hi then []
    else (if (lo in moved) == inMoved then [s[lo]] else []) + Pick(s, moved, lo + 1, hi, inMoved)
  }

  /** The collection after the move: what stays before the destination, then
      the moved elements, then what stays from the destination on. */
  function Move<T>(s: seq<T>, moved: set<int>, dest: int): seq<T>
    requires ValidMove(|s|, moved, dest)
  {
    Pick(s, moved, 0, dest, false) + Pick(s, moved, 0, |s|, true) + Pick(s, moved, dest, |s|, false)
  }

  lemma {:induction false} PickSplit<T>(s: seq<T>, moved: set<int>, lo: int, mid: int, hi: int, inMoved: bool)
    requires 0 <= lo <= mid <= hi <= |s|
    ensures Pick(s, moved, lo, hi, inMoved) == Pick(s, moved, lo, mid, inMoved) + Pick(s, moved, mid, hi, inMoved)
    decreases mid - lo
  {
    if lo < mid {
      PickSplit(s, moved, lo + 1, mid, hi, inMoved);
    }
  }

  /** Picking the moved and the unmoved elements of a range splits it. */
  lemma {:induction false} PickPartition<T>(s: seq<T>, moved: set<int>, lo: int, hi: int)
    requires 0 <= lo <= hi <= |s|
    ensures multiset(Pick(s, moved, lo, hi, true)) + multiset(Pick(s, moved, lo, hi, false)) == multiset(s[lo..hi])
    ensures |Pick(s, moved, lo, hi, true)| + |Pick(s, moved, lo, hi, false)| == hi - lo
    decreases hi - lo
  {
    if lo < hi {
      PickPartition(s, moved, lo + 1, hi);
      assert s[lo..hi] == [s[lo]] + s[lo + 1..hi];
      var yes := Pick(s, moved, lo + 1, hi, true);
      var no := Pick(s, moved, lo + 1, hi, false);
      if lo in moved {
        assert Pick(s, moved, lo, hi, true) == [s[lo]] + yes;
        assert Pick(s, moved, lo, hi, false) == no;
      } else {
        assert Pick(s, moved, lo, hi, true) == yes;
        assert Pick(s, moved, lo, hi, false) == [s[lo]] + no;
      }
    }
  }

  /** The picked elements are exactly those of the range whose offset is in
      `moved` exactly when `inMoved` holds. */
  lemma {:induction false} PickMembers<T>(s: seq<T>, moved: set<int>, lo: int, hi: int, inMoved: bool)
    requires 0 <= lo <= hi <= |s|
    ensures forall x :: x in Pick(s, moved, lo, hi, inMoved) <==>
      exists i :: lo <= i < hi && (i in moved) == inMoved && s[i] == x
    decreases hi - lo
  {
    if lo < hi {
      PickMembers(s, moved, lo + 1, hi, inMoved);
    }
  }

  /** A move neither adds nor loses an element. */
  lemma MovePermutes<T>(s: seq<T>, moved: set<int>, dest: int)
    requires ValidMove(|s|, moved, dest)
    ensures |Move(s, moved, dest)| == |s|
    ensures multiset(Move(s, moved, dest)) == multiset(s)
  {
    PickSplit(s, moved, 0, dest, |s|, false);
    PickPartition(s, moved, 0, |s|);
    assert s[0..|s|] == s;
  }

  /** The unmoved elements keep their relative order, and so do the moved
      ones, which form one block starting where the unmoved elements before
      the destination end. */
  lemma MoveKeepsOrder<T>(s: seq<T>, moved: set<int>, dest: int)
    requires ValidMove(|s|, moved, dest)
    ensures var a := |Pick(s, moved, 0, dest, false)|;
            var b := |Pick(s, moved, 0, |s|, true)|;
            var r := Move(s, moved, dest);
            a + b <= |r| &&
            r[a..a + b] == Pick(s, moved, 0, |s|, true) &&
            r[..a] + r[a + b..] == Pick(s, moved, 0, |s|, false)
  {
    var p, m, q := Pick(s, moved, 0, dest, false), Pick(s, moved, 0, |s|, true), Pick(s, moved, dest, |s|, false);
    PickSplit(s, moved, 0, dest, |s|, false);
    var r := Move(s, moved, dest);
    assert r == p + m + q;
    assert r[..|p|] == p;
    assert r[|p|..|p| + |m|] == m;
    assert r[|p| + |m|..] == q;
  }

  lemma {:induction false} PickNone<T>(s: seq<T>, lo: int, hi: int)
    requires 0 <= lo <= hi <= |s|
    ensures Pick(s, {}, lo, hi, false) == s[lo..hi]
    ensures Pick(s, {}, lo, hi, true) == []
    decreases hi - lo
  {
    if lo < hi {
      PickNone(s, lo + 1, hi);
    }
  }

  /** Moving nothing leaves the collection as it was, whatever the destination. */
  lemma MoveNothing<T>(s: seq<T>, dest: int)
    requires 0 <= dest <= |s|
    ensures Move(s, {}, dest) == s
  {
    PickNone(s, 0, dest);
    PickNone(s, 0, |s|);
    PickNone(s, dest, |s|);
  }

  /** With one offset chosen, the moved elements of a range are that
      element when the range holds it. */
  lemma {:induction false} PickOneMoved<T>(s: seq<T>, i: int, lo: int, hi: int)
    requires 0 <= lo <= hi <= |s|
    ensures Pick(s, {i}, lo, hi, true) == if lo <= i < hi then [s[i]] else []
    decreases hi - lo
  {
    if lo < hi {
      PickOneMoved(s, i, lo + 1, hi);
    }
  }

  /** With one offset chosen, the kept elements of a range are the range
      without that element. */
  lemma {:induction false} PickOneKept<T>(s: seq<T>, i: int, lo: int, hi: int)
    requires 0 <= lo <= hi <= |s|
    ensures Pick(s, {i}, lo, hi, false) == if lo <= i < hi then s[lo..i] + s[i + 1..hi] else s[lo..hi]
    decreases hi - lo
  {
    if lo < hi {
      PickOneKept(s, i, lo + 1, hi);
      var rest := Pick(s, {i}, lo + 1, hi, false);
      if lo == i {
        assert Pick(s, {i}, lo, hi, false) == rest == s[i + 1..hi];
        assert s[lo..i] == [];
      } else if lo < i < hi {
        assert Pick(s, {i}, lo, hi, false) == [s[lo]] + rest;
        assert rest == s[lo + 1..i] + s[i + 1..hi];
        assert s[lo..i] == [s[lo]] + s[lo + 1..i];
      } else {
        assert Pick(s, {i}, lo, hi, false) == [s[lo]] + rest;
        assert rest == s[lo + 1..hi];
        assert s[lo..hi] == [s[lo]] + s[lo + 1..hi];
      }
    }
  }

  /** Moving one element, stated independently: it is taken out and put back
      in front of the element that was at the destination. */
  lemma MoveOne<T>(s: seq<T>, i: int, dest: int)
    requires 0 <= i < |s| && 0 <= dest <= |s|
    ensures Move(s, {i}, dest) ==
      if dest <= i then s[..dest] + [s[i]] + s[dest..i] + s[i + 1..]
      else s[..i] + s[i + 1..dest] + [s[i]] + s[dest..]
  {
    PickOneMoved(s, i, 0, |s|);
    PickOneKept(s, i, 0, dest);
    PickOneKept(s, i, dest, |s|);
    var before := Pick(s, {i}, 0, dest, false);
    var after := Pick(s, {i}, dest, |s|, false);
    assert Move(s, {i}, dest) == before + [s[i]] + after;
    if dest <= i {
      assert before == s[..dest];
      assert after == s[dest..i] + s[i + 1..];
    } else {
      assert before == s[..i] + s[i + 1..dest];
      assert after == s[dest..];
    }
  }

  /** The first element moved to the end, and moved past one element: the
      destination counts positions in the list before the move. */
  lemma MoveExamples()
    ensures Move("ABC", {0}, 3) == "BCA"
    ensures Move("ABC", {0}, 2) == "BAC"
  {
    MoveOne("ABC", 0, 3);
    MoveOne("ABC", 0, 2);
  }
}
