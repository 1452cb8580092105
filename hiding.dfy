/**
 * What one hiding pass of the page script does to the page, stated on values.
 * The page is a sequence of element states; the selector queries are given as
 * lists of element indices (for the two queries that hide the closest()
 * ancestor, the list holds those ancestors, a null ancestor left out).
 */
module Hiding {
  /** An element's state: shown, hidden by an inline `display: none`, or removed from the tree. */
  datatype Display = Visible | Hidden | Removed

  /** One matched element and what the pass does to it if it is still shown. */
  datatype Target = Target(index: nat, mark: Display)

  /** The six querySelectorAll results a pass works through, in the order it runs them. */
  datatype Matches = Matches(
    reelsLinks: seq<nat>,           // a[href*="/reels/"]
    reelsNavLinks: seq<nat>,        // closest('a') of svg[aria-label="Reels"]
    shortsShelves: seq<nat>,        // rich shelf with is-shorts, reel shelf
    shortsGuideEntries: seq<nat>,   // closest guide entry of a[title="Shorts"]
    shortsTabs: seq<nat>,           // tab shapes titled Shorts
    shortsVideos: seq<nat>)         // [is-shorts], [href*="/shorts/"]

  datatype Swept = Swept(page: seq<Display>, count: nat)

  const Instagram := "instagram.com"
  const YouTube := "youtube.com"

  /** String.prototype.includes: `part` occurs somewhere in `s`. */
  predicate Includes(s: string, part: string)
    decreases |s|
  {
    |part| <= |s| && (s[..|part|] == part || Includes(s[1..], part))
  }

  /** `part` occurs in `s` starting at position k. */
  predicate OccursAt(s: string, part: string, k: int)
  {
    0 <= k <= |s| - |part| && s[k..k + |part|] == part
  }

  lemma {:induction false} IncludesIff(s: string, part: string)
    ensures Includes(s, part) <==> exists k :: OccursAt(s, part, k)
    decreases |s|
  {
    if |part| <= |s| {
      if s[..|part|] == part {
        assert OccursAt(s, part, 0);
      } else {
        IncludesIff(s[1..], part);
        if Includes(s[1..], part) {
          var k :| OccursAt(s[1..], part, k);
          assert s[k + 1..k + 1 + |part|] == s[1..][k..k + |part|];
          assert OccursAt(s, part, k + 1);
        }
        if k :| OccursAt(s, part, k) {
          assert k != 0;
          assert s[1..][k - 1..k - 1 + |part|] == s[k..k + |part|];
          assert OccursAt(s[1..], part, k - 1);
        }
      }
    }
  }

  /** One query's results as targets, in document order, each with the query's mark. */
  function Tagged(indices: seq<nat>, mark: Display): seq<Target>
  {
    seq(|indices|, k requires 0 <= k < |indices| => Target(indices[k], mark))
  }

  /** The targets of one more result are the earlier ones followed by its own. */
  lemma TaggedSnoc(indices: seq<nat>, mark: Display, k: nat)
    requires k < |indices|
    ensures Tagged(indices[..k + 1], mark) == Tagged(indices[..k], mark) + [Target(indices[k], mark)]
  {
  }

  /** A query's targets name exactly the elements the query found. */
  lemma TaggedIndices(indices: seq<nat>, mark: Display)
    ensures forall i :: i in Indices(Tagged(indices, mark)) <==> i in indices
  {
    var ts := Tagged(indices, mark);
    forall i | i in indices ensures i in Indices(ts) {
      var k :| 0 <= k < |indices| && indices[k] == i;
      assert ts[k].index == i;
    }
  }

  /** The elements a list of targets names. */
  function Indices(ts: seq<Target>): set<nat>
  {
    set k | 0 <= k < |ts| :: ts[k].index
  }

  predicate WithinPage(ts: seq<Target>, size: nat)
  {
    forall k :: 0 <= k < |ts| ==> ts[k].index < size
  }

  predicate HidesOnly(ts: seq<Target>)
  {
    forall k :: 0 <= k < |ts| ==> ts[k].mark != Visible
  }

  /** Every query result names an element of the page (querySelectorAll only returns elements of the document). */
  predicate MatchesWithin(m: Matches, size: nat)
  {
    && (forall k :: 0 <= k < |m.reelsLinks| ==> m.reelsLinks[k] < size)
    && (forall k :: 0 <= k < |m.reelsNavLinks| ==> m.reelsNavLinks[k] < size)
    && (forall k :: 0 <= k < |m.shortsShelves| ==> m.shortsShelves[k] < size)
    && (forall k :: 0 <= k < |m.shortsGuideEntries| ==> m.shortsGuideEntries[k] < size)
    && (forall k :: 0 <= k < |m.shortsTabs| ==> m.shortsTabs[k] < size)
    && (forall k :: 0 <= k < |m.shortsVideos| ==> m.shortsVideos[k] < size)
  }

  /** The Instagram queries, run only when the hostname includes instagram.com. */
  function InstagramTargets(host: string, m: Matches): seq<Target>
  {
    if Includes(host, Instagram) then Tagged(m.reelsLinks, Hidden) + Tagged(m.reelsNavLinks, Hidden) else []
  }

  /** The YouTube queries, run only when the hostname includes youtube.com; shelves are removed. */
  function YouTubeTargets(host: string, m: Matches): seq<Target>
  {
    if Includes(host, YouTube)
    then Tagged(m.shortsShelves, Removed) + Tagged(m.shortsGuideEntries, Hidden)
         + Tagged(m.shortsTabs, Hidden) + Tagged(m.shortsVideos, Hidden)
    else []
  }

  /** All targets of a pass on a page whose hostname is `host`, in the order the pass runs them. */
  function PassTargets(host: string, m: Matches): (ts: seq<Target>)
    ensures HidesOnly(ts)
  {
    InstagramTargets(host, m) + YouTubeTargets(host, m)
  }

  /**
   * Working through the targets in order: a target whose element is still
   * shown gets its mark and is counted; any other is left alone.
   */
  function Sweep(page: seq<Display>, ts: seq<Target>): (r: Swept)
    requires WithinPage(ts, |page|)
    ensures |r.page| == |page|
    ensures r.count <= |ts|
  {
    if ts == [] then Swept(page, 0)
    else
      var prior := Sweep(page, ts[..|ts| - 1]);
      var t := ts[|ts| - 1];
      if prior.page[t.index] == Visible then Swept(prior.page[t.index := t.mark], prior.count + 1)
      else prior
  }

  /** The distinct elements of the targets that are shown before the sweep. */
  function NewlyHidden(page: seq<Display>, ts: seq<Target>): set<nat>
    requires WithinPage(ts, |page|)
  {
    set k | 0 <= k < |ts| && page[ts[k].index] == Visible :: ts[k].index
  }

  /** Elements no target names are left exactly as they were. */
  lemma {:induction false} SweepLeavesOthers(page: seq<Display>, ts: seq<Target>, i: nat)
    requires WithinPage(ts, |page|) && i < |page| && i !in Indices(ts)
    ensures Sweep(page, ts).page[i] == page[i]
  {
    if ts != [] {
      assert Indices(ts[..|ts| - 1]) <= Indices(ts);
      SweepLeavesOthers(page, ts[..|ts| - 1], i);
    }
  }

  /**
   * Every named element ends the sweep not shown. One that was already hidden
   * or removed is not modified; one that was shown carries the mark of the
   * first target naming it.
   */
  lemma {:induction false} SweepHidesNamed(page: seq<Display>, ts: seq<Target>, i: nat)
    requires WithinPage(ts, |page|) && HidesOnly(ts) && i in Indices(ts)
    ensures Sweep(page, ts).page[i] != Visible
    ensures page[i] != Visible ==> Sweep(page, ts).page[i] == page[i]
    ensures page[i] == Visible ==>
      exists k :: (0 <= k < |ts| && ts[k].index == i
                   && Sweep(page, ts).page[i] == ts[k].mark
                   && forall j :: 0 <= j < k ==> ts[j].index != i)
  {
    var init := ts[..|ts| - 1];
    var last := ts[|ts| - 1];
    var prior := Sweep(page, init);
    SweepLastStep(page, ts, i);
    if i in Indices(init) {
      SweepHidesNamed(page, init, i);
      assert Sweep(page, ts).page[i] == prior.page[i];
      if page[i] == Visible {
        var k :| 0 <= k < |init| && init[k].index == i && prior.page[i] == init[k].mark
          && forall j :: 0 <= j < k ==> init[j].index != i;
        assert ts[k] == init[k];
        assert forall j :: 0 <= j < k ==> ts[j].index != i by {
          forall j | 0 <= j < k ensures ts[j].index != i {
            assert ts[j] == init[j];
          }
        }
        assert 0 <= k < |ts| && ts[k].index == i && Sweep(page, ts).page[i] == ts[k].mark;
      }
    } else {
      SweepLeavesOthers(page, init, i);
      assert last.index == i;
      if page[i] == Visible {
        assert forall j :: 0 <= j < |init| ==> ts[j].index != i by {
          forall j | 0 <= j < |init| ensures ts[j].index != i {
            assert ts[j] == init[j];
            assert init[j].index in Indices(init);
          }
        }
      }
    }
  }

  /** What the last target of a sweep does to element i. */
  lemma SweepLastStep(page: seq<Display>, ts: seq<Target>, i: nat)
    requires WithinPage(ts, |page|) && ts != [] && i < |page|
    ensures var prior := Sweep(page, ts[..|ts| - 1]).page; var last := ts[|ts| - 1];
      Sweep(page, ts).page[i] == if last.index == i && prior[i] == Visible then last.mark else prior[i]
  {
  }

  /** The sweep counts each element that was shown exactly once, however often it is named. */
  lemma {:induction false} SweepCountsNewlyHidden(page: seq<Display>, ts: seq<Target>)
    requires WithinPage(ts, |page|) && HidesOnly(ts)
    ensures Sweep(page, ts).count == |NewlyHidden(page, ts)|
  {
    if ts != [] {
      var init := ts[..|ts| - 1];
      var last := ts[|ts| - 1];
      SweepCountsNewlyHidden(page, init);
      NewlyHiddenStep(page, ts);
      var before := NewlyHidden(page, init);
      if last.index in Indices(init) {
        SweepHidesNamed(page, init, last.index);
        assert Sweep(page, ts) == Sweep(page, init);
        if page[last.index] == Visible {
          var k :| 0 <= k < |init| && init[k].index == last.index;
          assert last.index in before;
          assert NewlyHidden(page, ts) == before;
        }
      } else {
        SweepLeavesOthers(page, init, last.index);
        assert last.index !in before;
        if page[last.index] == Visible {
          assert Sweep(page, ts).count == Sweep(page, init).count + 1;
          assert |NewlyHidden(page, ts)| == |before| + 1;
        }
      }
    }
  }

  /** One more target adds its element to the newly hidden set exactly when that element is shown. */
  lemma NewlyHiddenStep(page: seq<Display>, ts: seq<Target>)
    requires WithinPage(ts, |page|) && ts != []
    ensures var last := ts[|ts| - 1];
      NewlyHidden(page, ts)
        == NewlyHidden(page, ts[..|ts| - 1]) + (if page[last.index] == Visible then {last.index} else {})
  {
    var init := ts[..|ts| - 1];
    var last := ts[|ts| - 1];
    var before := NewlyHidden(page, init);
    forall x | x in NewlyHidden(page, ts) ensures x in before + (if page[last.index] == Visible then {last.index} else {}) {
      var k :| 0 <= k < |ts| && page[ts[k].index] == Visible && ts[k].index == x;
      if k < |init| { assert init[k] == ts[k]; }
    }
    forall x | x in before ensures x in NewlyHidden(page, ts) {
      var k :| 0 <= k < |init| && page[init[k].index] == Visible && init[k].index == x;
      assert ts[k] == init[k];
    }
  }

  /** Sweeping a then b is sweeping a + b, and the counts add up. */
  lemma {:induction false} SweepAppend(page: seq<Display>, a: seq<Target>, b: seq<Target>)
    requires WithinPage(a, |page|) && WithinPage(b, |page|)
    ensures WithinPage(a + b, |page|)
    ensures Sweep(page, a + b) ==
      Swept(Sweep(Sweep(page, a).page, b).page, Sweep(page, a).count + Sweep(Sweep(page, a).page, b).count)
  {
    if b != [] {
      var b' := b[..|b| - 1];
      assert (a + b)[..|a + b| - 1] == a + b';
      SweepAppend(page, a, b');
    } else {
      assert a + b == a;
    }
  }

  /** When every named element is already hidden or removed, a sweep changes and counts nothing. */
  lemma {:induction false} SweepNothingShown(page: seq<Display>, ts: seq<Target>)
    requires WithinPage(ts, |page|)
    requires forall k :: 0 <= k < |ts| ==> page[ts[k].index] != Visible
    ensures Sweep(page, ts) == Swept(page, 0)
  {
    if ts != [] {
      SweepNothingShown(page, ts[..|ts| - 1]);
    }
  }

  /** A second sweep over the same targets is a no-op. */
  lemma SweepAgain(page: seq<Display>, ts: seq<Target>)
    requires WithinPage(ts, |page|) && HidesOnly(ts)
    ensures Sweep(Sweep(page, ts).page, ts) == Swept(Sweep(page, ts).page, 0)
  {
    var after := Sweep(page, ts).page;
    forall k | 0 <= k < |ts| ensures after[ts[k].index] != Visible {
      assert ts[k].index in Indices(ts);
      SweepHidesNamed(page, ts, ts[k].index);
    }
    SweepNothingShown(after, ts);
  }

  lemma WithinAppend(a: seq<Target>, b: seq<Target>, size: nat)
    requires WithinPage(a, size) && WithinPage(b, size)
    ensures WithinPage(a + b, size)
  {
    forall k | 0 <= k < |a + b| ensures (a + b)[k].index < size {
      if k >= |a| { assert (a + b)[k] == b[k - |a|]; }
    }
  }

  lemma PassTargetsWithin(host: string, m: Matches, size: nat)
    requires MatchesWithin(m, size)
    ensures WithinPage(InstagramTargets(host, m), size) && WithinPage(YouTubeTargets(host, m), size)
    ensures WithinPage(PassTargets(host, m), size)
  {
    WithinAppend(Tagged(m.reelsLinks, Hidden), Tagged(m.reelsNavLinks, Hidden), size);
    var yt1 := Tagged(m.shortsShelves, Removed) + Tagged(m.shortsGuideEntries, Hidden);
    WithinAppend(Tagged(m.shortsShelves, Removed), Tagged(m.shortsGuideEntries, Hidden), size);
    WithinAppend(yt1, Tagged(m.shortsTabs, Hidden), size);
    WithinAppend(yt1 + Tagged(m.shortsTabs, Hidden), Tagged(m.shortsVideos, Hidden), size);
    WithinAppend(InstagramTargets(host, m), YouTubeTargets(host, m), size);
  }

  /** Which elements a pass may touch, by hostname. */
  lemma PassTargetsBySite(host: string, m: Matches, i: nat)
    ensures i in Indices(PassTargets(host, m)) <==>
      (Includes(host, Instagram) && (i in m.reelsLinks || i in m.reelsNavLinks))
      || (Includes(host, YouTube)
          && (i in m.shortsShelves || i in m.shortsGuideEntries || i in m.shortsTabs || i in m.shortsVideos))
  {
    forall a: seq<Target>, b: seq<Target> ensures Indices(a + b) == Indices(a) + Indices(b) {
      IndicesAppend(a, b);
    }
    forall s: seq<nat>, mark: Display ensures (i in Indices(Tagged(s, mark))) == (i in s) {
      TaggedIndices(s, mark);
    }
  }

  lemma IndicesAppend(a: seq<Target>, b: seq<Target>)
    ensures Indices(a + b) == Indices(a) + Indices(b)
  {
    var ab := a + b;
    forall x | x in Indices(ab) ensures x in Indices(a) + Indices(b) {
      var k :| 0 <= k < |ab| && ab[k].index == x;
      if k >= |a| { assert b[k - |a|] == ab[k]; }
    }
    forall x | x in Indices(a) ensures x in Indices(ab) {
      var k :| 0 <= k < |a| && a[k].index == x;
      assert ab[k] == a[k];
    }
    forall x | x in Indices(b) ensures x in Indices(ab) {
      var k :| 0 <= k < |b| && b[k].index == x;
      assert ab[|a| + k] == b[k];
    }
  }
}
