/** Cutting a source text at its comments (check-dep.js). The generators become methods that return the list
    of what they yield. */
module Slices {
  import opened Bytes

  datatype Range = Range(start: int, end: int)

  // ---------- finding comments ----------

  predicate OccursAt(s: string, pat: string, k: int) {
    0 <= k && k + |pat| <= |s| && s[k..k + |pat|] == pat
  }

  /** The first occurrence at `from` or behind it. */
  function IndexOf(s: string, pat: string, from: nat): (k: Option<nat>)
    ensures k.Some? ==> from <= k.value && OccursAt(s, pat, k.value)
    ensures forall i :: from <= i && (k.Some? ==> i < k.value) ==> !OccursAt(s, pat, i)
    decreases |s| - from
  {
    if from + |pat| > |s| then None
    else if OccursAt(s, pat, from) then Some(from)
    else IndexOf(s, pat, from + 1)
  }

  /** The comments of the text from `i` on. */
  function Comments(code: string, i: nat): (r: seq<Range>)
    decreases |code| - i
  {
    if i >= |code| then []
    else
      var p := IndexOf(code, "/*", i);
      if p.None? then []
      else
        var e := IndexOf(code, "*/", p.value);
        if e.None? then [] else [Range(p.value, e.value + 2)] + Comments(code, e.value + 2)
  }

  /** One round of the search. */
  lemma CommentsFrom(code: string, i: nat, p: Option<nat>, out: seq<Range>)
    requires i < |code| && p == IndexOf(code, "/*", i)
    ensures p.None? || IndexOf(code, "*/", p.value).None? ==> Comments(code, i) == []
    ensures p.Some? && IndexOf(code, "*/", p.value).Some? ==>
              var end := IndexOf(code, "*/", p.value).value + 2;
              i < end && out + Comments(code, i) == out + [Range(p.value, end)] + Comments(code, end)
  {
    hide IndexOf;
    if p.Some? && IndexOf(code, "*/", p.value).Some? {
      var end := IndexOf(code, "*/", p.value).value + 2;
      Associate(out, [Range(p.value, end)], Comments(code, end));
    }
  }

  method GetComments(code: string) returns (out: seq<Range>)
    ensures out == Comments(code, 0)
  {
    hide IndexOf;
    hide Comments;
    out := [];
    var i, n := 0, |code|;
    while i < n
      invariant out + Comments(code, i) == Comments(code, 0)
      decreases n - i
    {
      var p := IndexOf(code, "/*", i);
      var e := IndexOf(code, "*/", if p.Some? then p.value else 0);
      CommentsFrom(code, i, p, out);
      if p.None? || e.None? {
        break;
      }
      out := out + [Range(p.value, e.value + 2)];
      i := e.value + 2;
    }
    if i >= n {
      NoCommentsAtEnd(code, i);
    }
  }

  lemma NoCommentsAtEnd(code: string, i: nat)
    requires i >= |code|
    ensures Comments(code, i) == []
  {
  }

  /** A list of comments as they follow each other from `i` on: each starts at the first opening mark, and
      ends behind the first closing mark at or behind its own opening mark. */
  ghost predicate AreComments(code: string, i: nat, list: seq<Range>)
    decreases |list|
  {
    if list == [] then true
    else
      var r := list[0];
      && i <= r.start <= r.end - 3 && r.end <= |code|
      && OccursAt(code, "/*", r.start) && (forall k :: i <= k < r.start ==> !OccursAt(code, "/*", k))
      && OccursAt(code, "*/", r.end - 2) && (forall k :: r.start <= k < r.end - 2 ==> !OccursAt(code, "*/", k))
      && AreComments(code, r.end, list[1..])
  }

  /** Where the last comment ends. */
  function EndOf(list: seq<Range>, i: int): int {
    if list == [] then i else list[|list| - 1].end
  }

  /** Nothing more is to be found: no opening mark from `i` on has a closing mark at or behind it. */
  ghost predicate NoMoreFrom(code: string, i: nat) {
    forall p, e :: i <= p <= e ==> !(OccursAt(code, "/*", p) && OccursAt(code, "*/", e))
  }

  /** All comments are found, and nothing else. */
  lemma {:induction false} CommentsAreComments(code: string, i: nat)
    ensures AreComments(code, i, Comments(code, i))
    ensures EndOf(Comments(code, i), i) >= i
    ensures NoMoreFrom(code, EndOf(Comments(code, i), i))
    decreases |code| - i
  {
    var list := Comments(code, i);
    if list != [] {
      var r := list[0];
      CommentsAreComments(code, r.end);
      assert list[1..] == Comments(code, r.end);
      ClosingMarkBehind(code, r);
    }
  }

  /** No other list does. */
  lemma {:induction false} CommentsAreUnique(code: string, i: nat, list: seq<Range>)
    requires AreComments(code, i, list) && EndOf(list, i) >= 0 && NoMoreFrom(code, EndOf(list, i))
    ensures list == Comments(code, i)
    decreases |list|
  {
    hide OccursAt;
    if list == [] {
      NothingFound(code, i);
    } else {
      var r := list[0];
      assert EndOf(list[1..], r.end) == EndOf(list, i);
      CommentsAreUnique(code, r.end, list[1..]);
      IndexOfIs(code, "/*", i, r.start);
      IndexOfIs(code, "*/", r.start, r.end - 2);
      assert [r] + list[1..] == list;
    }
  }

  lemma NothingFound(code: string, i: nat)
    requires NoMoreFrom(code, i)
    ensures Comments(code, i) == []
  {
    hide OccursAt;
  }

  lemma IndexOfIs(s: string, pat: string, from: nat, k: nat)
    requires from <= k && OccursAt(s, pat, k) && forall j :: from <= j < k ==> !OccursAt(s, pat, j)
    ensures IndexOf(s, pat, from) == Some(k)
  {
    hide OccursAt;
  }

  lemma ClosingMarkBehind(code: string, r: Range)
    requires r.start >= 0 && r.end >= 2
    requires OccursAt(code, "/*", r.start) && OccursAt(code, "*/", r.end - 2) && r.start <= r.end - 2
    ensures r.start + 3 <= r.end
  {
    assert code[r.start..r.start + 2][0] == code[r.start] == '/';
    assert code[r.end - 2..r.end][0] == code[r.end - 2] == '*';
  }

  // ---------- the ranges between ranges ----------

  function Gap(i: int, next: int): seq<Range> {
    if next > i then [Range(i, next)] else []
  }

  function Missing(ranges: seq<Range>, i: int, length: nat): seq<Range> {
    if ranges == [] then Gap(i, length)
    else Gap(i, ranges[0].start) + Missing(ranges[1..], ranges[0].end, length)
  }

  method MissingRange(ranges: seq<Range>, length: nat) returns (out: seq<Range>)
    ensures out == Missing(ranges, 0, length)
  {
    out := [];
    var i := 0;
    assert ranges[0..] == ranges;
    for k := 0 to |ranges|
      invariant out + Missing(ranges[k..], i, length) == Missing(ranges, 0, length)
    {
      var Range(s, e) := ranges[k];
      MissingStep(out, ranges[k..], i, length);
      assert ranges[k..][1..] == ranges[k + 1..];
      if s > i {
        out := out + [Range(i, s)];
      }
      i := e;
    }
    if i < length {
      out := out + [Range(i, length)];
    }
  }

  lemma MissingStep(out: seq<Range>, ranges: seq<Range>, i: int, length: nat)
    requires ranges != []
    ensures out + Missing(ranges, i, length)
            == out + Gap(i, ranges[0].start) + Missing(ranges[1..], ranges[0].end, length)
  {
    hide Gap;
    Associate(out, Gap(i, ranges[0].start), Missing(ranges[1..], ranges[0].end, length));
  }

  /** Sorted, disjoint and inside the text, from `i` on. */
  ghost predicate Ordered(ranges: seq<Range>, i: int, length: nat) {
    if ranges == [] then i <= length
    else i <= ranges[0].start <= ranges[0].end && Ordered(ranges[1..], ranges[0].end, length)
  }

  ghost predicate Covers(ranges: seq<Range>, k: int) {
    exists r :: r in ranges && r.start <= k < r.end
  }

  /** The missing ranges are the complement: they are sorted, disjoint and not empty, and a position is in one
      of them exactly if it is in none of the ranges. */
  lemma {:induction false} MissingIsComplement(ranges: seq<Range>, i: int, length: nat)
    requires Ordered(ranges, i, length)
    ensures Ordered(Missing(ranges, i, length), i, length)
    ensures forall r :: r in Missing(ranges, i, length) ==> r.start < r.end
    ensures forall k :: Covers(Missing(ranges, i, length), k) <==> i <= k < length && !Covers(ranges, k)
  {
    if ranges != [] {
      var r, rest := ranges[0], ranges[1..];
      var gap, others := Gap(i, r.start), Missing(rest, r.end, length);
      MissingIsComplement(rest, r.end, length);
      assert ranges == [r] + rest;
      OrderedEnd(rest, r.end, length);
      forall k
        ensures Covers(gap + others, k) <==> i <= k < length && !Covers(ranges, k)
      {
        CoversAppend(gap, others, k);
        CoversAppend([r], rest, k);
        CoversOne(r, k);
        if gap != [] {
          CoversOne(gap[0], k);
        }
        if Covers(rest, k) {
          CoversInside(rest, r.end, length, k);
        }
      }
      if gap != [] {
        assert (gap + others)[1..] == others;
        OrderedFromEarlier(others, r.end, r.start, length);
      } else {
        assert gap + others == others;
        OrderedFromEarlier(others, r.end, i, length);
      }
    } else if i < length {
      forall k
        ensures Covers([Range(i, length)], k) <==> i <= k < length
      {
        CoversOne(Range(i, length), k);
      }
    }
  }

  lemma CoversOne(r: Range, k: int)
    ensures Covers([r], k) <==> r.start <= k < r.end
  {
    assert r in [r];
  }

  lemma CoversAppend(a: seq<Range>, b: seq<Range>, k: int)
    ensures Covers(a + b, k) <==> Covers(a, k) || Covers(b, k)
  {
    assert forall r :: r in a + b <==> r in a || r in b;
  }

  lemma OrderedEnd(ranges: seq<Range>, i: int, length: nat)
    requires Ordered(ranges, i, length)
    ensures i <= length
  {
  }

  lemma OrderedFromEarlier(ranges: seq<Range>, i: int, j: int, length: nat)
    requires Ordered(ranges, i, length) && j <= i
    ensures Ordered(ranges, j, length)
  {
    OrderedEnd(ranges, i, length);
  }

  lemma {:induction false} CoversInside(ranges: seq<Range>, i: int, length: nat, k: int)
    requires Ordered(ranges, i, length) && Covers(ranges, k)
    ensures i <= k < length
  {
    var r, rest := ranges[0], ranges[1..];
    OrderedEnd(rest, r.end, length);
    assert ranges == [r] + rest;
    CoversAppend([r], rest, k);
    CoversOne(r, k);
    if Covers(rest, k) {
      CoversInside(rest, r.end, length, k);
    }
  }

  // ---------- cutting at points ----------

  /** The points in order, without a point that equals the one before it. `q` is that one. */
  function WithoutRepeats(points: seq<int>, q: Option<int>): seq<int> {
    if points == [] then []
    else (if q == Some(points[0]) then [] else [points[0]]) + WithoutRepeats(points[1..], Some(points[0]))
  }

  /** The points from the front on: each one more is there, unless it repeats the point before it. */
  lemma {:induction false} RepeatsAreLeftOut(points: seq<int>, p: int, q: Option<int>)
    ensures var before := if points == [] then q else Some(points[|points| - 1]);
            WithoutRepeats(points + [p], q) == WithoutRepeats(points, q) + (if before == Some(p) then [] else [p])
  {
    if points != [] {
      var first, rest := points[0], points[1..];
      RepeatsAreLeftOut(rest, p, Some(first));
      assert (points + [p])[0] == first && (points + [p])[1..] == rest + [p];
    }
  }

  ghost predicate SamePointsNoRepeats(r: seq<int>, points: seq<int>) {
    && (forall k :: 0 < k < |r| ==> r[k] != r[k - 1])
    && (forall p :: p in r <==> p in points)
    && if points == [] then r == [] else r != [] && r[|r| - 1] == points[|points| - 1]
  }

  /** So no point repeats the one before it, and none is lost otherwise. */
  lemma {:induction false} NoRepeats(points: seq<int>)
    ensures SamePointsNoRepeats(WithoutRepeats(points, None), points)
    decreases |points|
  {
    if points != [] {
      hide *;
      var front, p := points[..|points| - 1], points[|points| - 1];
      assert points == front + [p];
      NoRepeats(front);
      RepeatsAreLeftOut(front, p, None);
      OnePointMore(WithoutRepeats(front, None), front, p);
      LastPoint(WithoutRepeats(front, None), front, p);
    }
  }

  lemma LastPoint(r: seq<int>, points: seq<int>, p: int)
    ensures var before := if points == [] then None else Some(points[|points| - 1]);
            r + (if before == Some(p) then [] else [p])
            == if points != [] && points[|points| - 1] == p then r else r + [p]
  {
  }

  lemma OnePointMore(r: seq<int>, points: seq<int>, p: int)
    requires SamePointsNoRepeats(r, points)
    ensures SamePointsNoRepeats(if points != [] && points[|points| - 1] == p then r else r + [p], points + [p])
  {
  }

  /** Each range is a list of points; a lone point is a list of one. */
  method RangePoints(ranges: seq<seq<int>>) returns (out: seq<int>)
    ensures out == WithoutRepeats(Flatten(ranges), None)
  {
    hide Flatten;
    hide WithoutRepeats;
    out := [];
    var q: Option<int> := None;
    assert ranges[0..] == ranges;
    for k := 0 to |ranges|
      invariant out + WithoutRepeats(Flatten(ranges[k..]), q) == WithoutRepeats(Flatten(ranges), None)
    {
      var r := ranges[k];
      assert ranges[k..] == [r] + ranges[k + 1..];
      FlattenCons(r, ranges[k + 1..]);
      ghost var later := Flatten(ranges[k + 1..]);
      assert r[0..] == r;
      for j := 0 to |r|
        invariant out + WithoutRepeats(r[j..] + later, q) == WithoutRepeats(Flatten(ranges), None)
      {
        var p := r[j];
        PointStep(out, p, r[j + 1..] + later, q);
        assert r[j..] + later == [p] + (r[j + 1..] + later);
        if q != Some(p) {
          out := out + [p];
        }
        q := Some(p);
      }
      assert r[|r|..] + later == later;
    }
    NoPoints(q);
    assert ranges[|ranges|..] == [];
  }

  lemma NoPoints(q: Option<int>)
    ensures WithoutRepeats(Flatten([]), q) == []
  {
  }

  lemma PointStep(out: seq<int>, p: int, rest: seq<int>, q: Option<int>)
    ensures out + WithoutRepeats([p] + rest, q)
            == out + (if q == Some(p) then [] else [p]) + WithoutRepeats(rest, Some(p))
  {
    Associate(out, if q == Some(p) then [] else [p], WithoutRepeats(rest, Some(p)));
    assert ([p] + rest)[1..] == rest;
  }

  /** The ranges between the points; a point that is not behind the one before it ends no range. */
  function Cuts(points: seq<int>, i: int, length: nat): seq<Range> {
    if points == [] then Gap(i, length) else Gap(i, points[0]) + Cuts(points[1..], points[0], length)
  }

  method RangeSlice(ranges: seq<seq<int>>, length: nat) returns (out: seq<Range>)
    ensures out == Cuts(Flatten(ranges), 0, length)
  {
    hide Flatten;
    hide WithoutRepeats;
    var points := RangePoints(ranges);
    out := [];
    var i := 0;
    assert points[0..] == points;
    for k := 0 to |points|
      invariant out + Cuts(points[k..], i, length) == Cuts(points, 0, length)
    {
      var p := points[k];
      CutsStep(out, points[k..], i, length);
      assert points[k..][1..] == points[k + 1..];
      if p > i {
        out := out + [Range(i, p)];
      }
      i := p;
    }
    if i < length {
      out := out + [Range(i, length)];
    }
    RepeatsCutNothing(Flatten(ranges), None, 0, length);
  }

  lemma CutsStep(out: seq<Range>, points: seq<int>, i: int, length: nat)
    requires points != []
    ensures out + Cuts(points, i, length) == out + Gap(i, points[0]) + Cuts(points[1..], points[0], length)
  {
    hide Gap;
    Associate(out, Gap(i, points[0]), Cuts(points[1..], points[0], length));
  }

  /** Leaving out repeated points changes no range. */
  lemma {:induction false} RepeatsCutNothing(points: seq<int>, q: Option<int>, i: int, length: nat)
    requires q.Some? ==> q.value == i
    ensures Cuts(WithoutRepeats(points, q), i, length) == Cuts(points, i, length)
  {
    if points != [] {
      var p, rest := points[0], points[1..];
      RepeatsCutNothing(rest, Some(p), p, length);
      assert ([p] + WithoutRepeats(rest, Some(p)))[1..] == WithoutRepeats(rest, Some(p));
      assert q == Some(p) ==> Gap(i, p) + Cuts(rest, p, length) == Cuts(rest, p, length);
      assert [] + WithoutRepeats(rest, Some(p)) == WithoutRepeats(rest, Some(p));
    }
  }

  predicate SortedFrom(points: seq<int>, i: int, length: nat) {
    if points == [] then i <= length else i <= points[0] && SortedFrom(points[1..], points[0], length)
  }

  predicate StartsAt(cuts: seq<Range>, k: int) {
    exists r :: r in cuts && r.start == k
  }

  /** Between points in order, a range starts at the front and at each point inside the text, and nowhere else. */
  lemma {:induction false} CutsStartAtPoints(points: seq<int>, i: int, length: nat)
    requires SortedFrom(points, i, length)
    ensures i <= length
    ensures forall k :: StartsAt(Cuts(points, i, length), k) <==> (k == i || k in points) && k < length
  {
    if points != [] {
      var p, rest := points[0], points[1..];
      CutsStartAtPoints(rest, p, length);
      forall k
        ensures StartsAt(Cuts(points, i, length), k) <==> (k == i || k in points) && k < length
      {
        StartsAtEither(Gap(i, p), Cuts(rest, p, length), k);
        GapStarts(i, p, k);
        assert points == [p] + rest;
      }
    } else {
      forall k
        ensures StartsAt(Gap(i, length), k) <==> k == i && k < length
      {
        GapStarts(i, length, k);
      }
    }
  }

  lemma GapStarts(i: int, next: int, k: int)
    ensures StartsAt(Gap(i, next), k) <==> k == i < next
  {
    if i < next {
      assert Range(i, next) in [Range(i, next)];
    }
  }

  lemma StartsAtEither(a: seq<Range>, b: seq<Range>, k: int)
    ensures StartsAt(a + b, k) <==> StartsAt(a, k) || StartsAt(b, k)
  {
    assert forall r :: r in a + b <==> r in a || r in b;
  }

  /** How `String.prototype.slice` reads an index: from the end if negative, and never outside the text. */
  function Clamped(k: int, length: nat): nat {
    if k < 0 then (if length + k < 0 then 0 else length + k) else if k > length then length else k
  }

  function SliceOf(s: string, r: Range): string {
    var a, b := Clamped(r.start, |s|), Clamped(r.end, |s|);
    if a < b then s[a..b] else ""
  }

  /** Negative indices count from the end; no index leads out of the text; and nothing lies between an index and
      one that is not behind it. */
  lemma SliceIs(s: string, a: int, b: int)
    ensures 0 <= a <= b <= |s| ==> SliceOf(s, Range(a, b)) == s[a..b]
    ensures 0 <= b <= a ==> SliceOf(s, Range(a, b)) == ""
    ensures -|s| <= a < 0 ==> SliceOf(s, Range(a, b)) == SliceOf(s, Range(|s| + a, b))
    ensures -|s| <= b < 0 ==> SliceOf(s, Range(a, b)) == SliceOf(s, Range(a, |s| + b))
    ensures a < -|s| ==> SliceOf(s, Range(a, b)) == SliceOf(s, Range(0, b))
    ensures b < -|s| ==> SliceOf(s, Range(a, b)) == ""
    ensures a > |s| ==> SliceOf(s, Range(a, b)) == ""
    ensures b > |s| ==> SliceOf(s, Range(a, b)) == SliceOf(s, Range(a, |s|))
  {
  }

  function Texts(s: string, cuts: seq<Range>): seq<string> {
    if cuts == [] then [] else [SliceOf(s, cuts[0])] + Texts(s, cuts[1..])
  }

  lemma {:induction false} TextsAppend(s: string, a: seq<Range>, b: seq<Range>)
    ensures Texts(s, a + b) == Texts(s, a) + Texts(s, b)
  {
    hide SliceOf;
    if a == [] {
      assert a + b == b;
    } else {
      TextsAppend(s, a[1..], b);
      assert a + b == [a[0]] + (a[1..] + b);
      TextsCons(s, a[0], a[1..] + b);
    }
  }

  lemma TextsCons(s: string, r: Range, rest: seq<Range>)
    ensures Texts(s, [r] + rest) == [SliceOf(s, r)] + Texts(s, rest)
  {
    assert ([r] + rest)[1..] == rest;
  }

  /** What `t` makes of each slice and the position it starts at. */
  method GetRanges<T>(s: string, ranges: seq<seq<int>>, t: (int, string) -> T) returns (out: seq<T>)
    ensures var cuts := Cuts(Flatten(ranges), 0, |s|);
            |out| == |cuts| && forall k :: 0 <= k < |out| ==> out[k] == t(cuts[k].start, SliceOf(s, cuts[k]))
  {
    hide SliceOf;
    hide Cuts;
    hide Flatten;
    var cuts := RangeSlice(ranges, |s|);
    out := [];
    for k := 0 to |cuts|
      invariant |out| == k && forall j :: 0 <= j < k ==> out[j] == t(cuts[j].start, SliceOf(s, cuts[j]))
    {
      out := out + [t(cuts[k].start, SliceOf(s, cuts[k]))];
    }
  }

  /** What is made without a `t` of one's own. */
  function Pair(index: int, text: string): (int, string) {
    (index, text)
  }

  function SecondOf(pairs: seq<(int, string)>): (r: seq<string>)
    ensures |r| == |pairs| && forall k :: 0 <= k < |r| ==> r[k] == pairs[k].1
  {
    if pairs == [] then [] else [pairs[0].1] + SecondOf(pairs[1..])
  }

  lemma {:induction false} TextsAt(s: string, cuts: seq<Range>)
    ensures |Texts(s, cuts)| == |cuts| && forall k :: 0 <= k < |cuts| ==> Texts(s, cuts)[k] == SliceOf(s, cuts[k])
  {
    if cuts != [] {
      TextsAt(s, cuts[1..]);
    }
  }

  // ---------- slicing loses nothing ----------

  /** The points never step back; those behind the text count as its end. */
  predicate Rising(points: seq<nat>, i: nat, length: nat) {
    points == [] || (Clamped(i, length) <= Clamped(points[0], length) && Rising(points[1..], points[0], length))
  }

  /** How far the points step back in all. */
  function StepsBack(points: seq<nat>, i: nat, length: nat): (n: nat)
    ensures n == 0 <==> Rising(points, i, length)
  {
    if points == [] then 0
    else
      var a, b := Clamped(i, length), Clamped(points[0], length);
      (if b < a then a - b else 0) + StepsBack(points[1..], points[0], length)
  }

  lemma {:induction false} SlicesFrom(s: string, points: seq<nat>, i: nat)
    ensures |Flatten(Texts(s, Cuts(points, i, |s|)))| == |s| - Clamped(i, |s|) + StepsBack(points, i, |s|)
    ensures Rising(points, i, |s|) ==> Flatten(Texts(s, Cuts(points, i, |s|))) == s[Clamped(i, |s|)..]
  {
    hide Flatten;
    hide Texts;
    if points == [] {
      JoinOfGap(s, i, |s|, []);
      NoTexts(s);
      NothingJoined();
      assert Gap(i, |s|) + [] == Gap(i, |s|);
    } else {
      var p := points[0];
      SlicesFrom(s, points[1..], p);
      JoinOfGap(s, i, p, Cuts(points[1..], p, |s|));
      if Clamped(i, |s|) <= Clamped(p, |s|) {
        BetweenThen(s, i, p);
      }
    }
  }

  lemma NothingJoined()
    ensures Flatten<char>([]) == []
  {
  }

  lemma BetweenThen(s: string, i: nat, p: nat)
    requires Clamped(i, |s|) <= Clamped(p, |s|)
    ensures Between(s, i, p) + s[Clamped(p, |s|)..] == s[Clamped(i, |s|)..]
  {
  }

  function Between(s: string, i: nat, p: nat): string {
    if Clamped(i, |s|) <= Clamped(p, |s|) then s[Clamped(i, |s|)..Clamped(p, |s|)] else ""
  }

  lemma JoinOfGap(s: string, i: nat, p: nat, rest: seq<Range>)
    ensures Flatten(Texts(s, Gap(i, p) + rest)) == Between(s, i, p) + Flatten(Texts(s, rest))
  {
    hide *;
    SliceBetween(s, i, p);
    GapIs(i, p);
    if p > i {
      TextsCons(s, Range(i, p), rest);
      FlattenCons(SliceOf(s, Range(i, p)), Texts(s, rest));
    } else {
      assert [] + rest == rest;
    }
  }

  lemma GapIs(i: int, p: int)
    ensures Gap(i, p) == if p > i then [Range(i, p)] else []
  {
  }

  lemma SliceBetween(s: string, i: nat, p: nat)
    ensures Between(s, i, p) == if p > i then SliceOf(s, Range(i, p)) else ""
  {
  }

  /** Joining the slices gives the text back exactly if the points never step back. */
  lemma SlicingLosesNothing(s: string, ranges: seq<seq<nat>>)
    ensures Flatten(Texts(s, Cuts(Flatten(ranges), 0, |s|))) == s <==> Rising(Flatten(ranges), 0, |s|)
  {
    SlicesFrom(s, Flatten(ranges), 0);
    assert s[0..] == s;
  }

  // ---------- leaving the comments out ----------

  predicate Opens(text: string) {
    OccursAt(text, "/*", 0)
  }

  function Pairs(list: seq<Range>): seq<seq<int>> {
    if list == [] then [] else [[list[0].start, list[0].end]] + Pairs(list[1..])
  }

  /** The texts that do not start with an opening mark. */
  function Kept(texts: seq<string>): seq<string> {
    if texts == [] then [] else (if Opens(texts[0]) then [] else [texts[0]]) + Kept(texts[1..])
  }

  /** What lies behind the last comment found. */
  function Tail(s: string): string {
    CommentsAreComments(s, 0);
    CommentsEndInside(s, 0, Comments(s, 0));
    s[EndOf(Comments(s, 0), 0)..]
  }

  lemma {:induction false} CommentsEndInside(s: string, i: nat, list: seq<Range>)
    requires i <= |s| && AreComments(s, i, list)
    ensures i <= EndOf(list, i) <= |s|
    decreases |list|
  {
    if list != [] {
      CommentsEndInside(s, list[0].end, list[1..]);
    }
  }

  /** Yields the text between the comments, except for a comment that is never closed and has no text between
      it and the comment before: it yields the text of the missing ranges exactly if the tail opens no comment. */
  method FilterComments(s: string) returns (out: seq<string>)
    ensures out + (if Opens(Tail(s)) then [Tail(s)] else []) == Texts(s, Missing(Comments(s, 0), 0, |s|))
    ensures out == Texts(s, Missing(Comments(s, 0), 0, |s|)) <==> !Opens(Tail(s))
  {
    hide Kept;
    hide Texts;
    hide Cuts;
    hide Missing;
    hide Comments;
    var comments := GetComments(s);
    var points := PairsOf(comments);
    var ranges := GetRanges(s, points, Pair);
    TextsAt(s, Cuts(Flatten(points), 0, |s|));
    out := [];
    ghost var texts := SecondOf(ranges);
    assert texts == Texts(s, Cuts(Flatten(points), 0, |s|));
    assert texts[0..] == texts;
    for k := 0 to |ranges|
      invariant out + Kept(texts[k..]) == Kept(texts)
    {
      KeptStep(out, texts[k..]);
      assert texts[k..][1..] == texts[k + 1..];
      var starts := Opens(ranges[k].1);
      if !starts {
        out := out + [ranges[k].1];
      }
    }
    NothingKept();
    assert texts[|ranges|..] == [];
    CommentsAreComments(s, 0);
    KeptFrom(s, 0, comments);
  }

  method PairsOf(list: seq<Range>) returns (points: seq<seq<int>>)
    ensures points == Pairs(list)
  {
    points := [];
    assert list[0..] == list;
    for k := 0 to |list|
      invariant points + Pairs(list[k..]) == Pairs(list)
    {
      assert list[k..][1..] == list[k + 1..];
      points := points + [[list[k].start, list[k].end]];
    }
  }

  lemma NothingKept()
    ensures Kept([]) == []
  {
  }

  lemma KeptStep(out: seq<string>, texts: seq<string>)
    requires texts != []
    ensures out + Kept(texts) == out + (if Opens(texts[0]) then [] else [texts[0]]) + Kept(texts[1..])
  {
    hide Opens;
    Associate(out, if Opens(texts[0]) then [] else [texts[0]], Kept(texts[1..]));
  }

  lemma KeptCons(text: string, rest: seq<string>)
    ensures Kept([text] + rest) == (if Opens(text) then [] else [text]) + Kept(rest)
  {
    assert ([text] + rest)[1..] == rest;
  }

  /** A gap before a comment does not start with an opening mark. */
  lemma GapIsKept(s: string, i: nat, start: nat, rest: seq<Range>)
    requires i <= start <= |s|
    requires forall k :: i <= k < start ==> !OccursAt(s, "/*", k)
    ensures Kept(Texts(s, Gap(i, start) + rest)) == Texts(s, Gap(i, start)) + Kept(Texts(s, rest))
  {
    hide Kept;
    hide Texts;
    if i < start {
      var text := SliceOf(s, Range(i, start));
      TextsCons(s, Range(i, start), rest);
      KeptCons(text, Texts(s, rest));
      TextsCons(s, Range(i, start), []);
      assert [Range(i, start)] + [] == [Range(i, start)];
      NoTexts(s);
      OccursInSlice(s, i, start, "/*", 0);
    } else {
      NoTexts(s);
      assert Gap(i, start) + rest == rest;
    }
  }

  lemma OccursInSlice(s: string, a: nat, b: nat, pat: string, k: nat)
    requires a <= b <= |s|
    ensures OccursAt(s[a..b], pat, k) ==> OccursAt(s, pat, a + k)
  {
    if OccursAt(s[a..b], pat, k) {
      forall j | 0 <= j < |pat|
        ensures s[a + k..a + k + |pat|][j] == pat[j]
      {
        assert s[a..b][k..k + |pat|][j] == s[a..b][k + j] == s[a + k + j];
      }
    }
  }

  lemma NoTexts(s: string)
    ensures Texts(s, []) == []
  {
  }

  lemma CommentIsLeftOut(s: string, r: Range, rest: seq<Range>)
    requires 0 <= r.start && r.start + 2 <= r.end <= |s| && OccursAt(s, "/*", r.start)
    ensures Kept(Texts(s, [r] + rest)) == Kept(Texts(s, rest))
  {
    hide Kept;
    hide Texts;
    TextsCons(s, r, rest);
    KeptCons(SliceOf(s, r), Texts(s, rest));
    assert SliceOf(s, r)[0..2] == s[r.start..r.start + 2];
    assert Opens(SliceOf(s, r));
  }

  lemma {:induction false} KeptFrom(s: string, i: nat, list: seq<Range>)
    requires i <= |s| && AreComments(s, i, list)
    ensures i <= EndOf(list, i) <= |s|
    ensures var tail := s[EndOf(list, i)..];
            Kept(Texts(s, Cuts(Flatten(Pairs(list)), i, |s|))) + (if Opens(tail) then [tail] else [])
            == Texts(s, Missing(list, i, |s|))
    decreases |list|
  {
    hide Kept;
    hide Texts;
    if list == [] {
      OnlyTail(s, i);
    } else {
      var r, rest := list[0], list[1..];
      KeptFrom(s, r.end, rest);
      var cuts := Cuts(Flatten(Pairs(rest)), r.end, |s|);
      CutsOfPairs(r, rest, i, |s|);
      GapIsKept(s, i, r.start, [r] + cuts);
      CommentIsLeftOut(s, r, cuts);
      TextsAppend(s, Gap(i, r.start), Missing(rest, r.end, |s|));
    }
  }

  lemma CutsOfPairs(r: Range, rest: seq<Range>, i: int, length: nat)
    requires r.start < r.end
    ensures Cuts(Flatten(Pairs([r] + rest)), i, length) == Gap(i, r.start) + ([r] + Cuts(Flatten(Pairs(rest)), r.end, length))
  {
    assert ([r] + rest)[1..] == rest;
    FlattenCons([r.start, r.end], Pairs(rest));
    var later := Flatten(Pairs(rest));
    assert ([r.start, r.end] + later)[1..] == [r.end] + later;
    assert ([r.end] + later)[1..] == later;
  }

  lemma OnlyTail(s: string, i: nat)
    requires i <= |s|
    ensures Kept(Texts(s, Cuts(Flatten(Pairs([])), i, |s|))) + (if Opens(s[i..]) then [s[i..]] else [])
            == Texts(s, Missing([], i, |s|))
  {
    hide Texts;
    hide Kept;
    NoTexts(s);
    NothingKept();
    assert Flatten(Pairs([])) == [];
    if i < |s| {
      TextsCons(s, Range(i, |s|), []);
      KeptCons(s[i..], []);
      assert [Range(i, |s|)] + [] == [Range(i, |s|)];
      assert [s[i..]] + [] == [s[i..]];
      assert SliceOf(s, Range(i, |s|)) == s[i..];
    }
  }

  /** Every opening mark has a closing mark at or behind it. */
  ghost predicate AllClosed(s: string) {
    forall k :: OccursAt(s, "/*", k) ==> exists e :: k <= e && OccursAt(s, "*/", e)
  }

  lemma ClosedTextEnds(s: string, i: nat, k: int)
    requires AllClosed(s) && NoMoreFrom(s, i) && i <= k
    ensures !OccursAt(s, "/*", k)
  {
    hide OccursAt;
  }

  /** A text whose comments are all closed has no opening mark behind the last comment. */
  lemma ClosedTextHasPlainTail(s: string)
    requires AllClosed(s)
    ensures forall k: nat :: !OccursAt(Tail(s), "/*", k)
    ensures !Opens(Tail(s))
  {
    hide OccursAt;
    hide AllClosed;
    hide NoMoreFrom;
    hide Comments;
    CommentsAreComments(s, 0);
    CommentsEndInside(s, 0, Comments(s, 0));
    var end := EndOf(Comments(s, 0), 0);
    forall k: nat
      ensures !OccursAt(Tail(s), "/*", k)
    {
      ClosedTextEnds(s, end, end + k);
      OccursInSlice(s, end, |s|, "/*", k);
      assert s[end..|s|] == Tail(s);
    }
  }
}
