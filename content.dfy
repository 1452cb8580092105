/**
 * The page script: its module state, the throttled hiding pass, turning the
 * protocol on and off, the structural observer and the navigation observer.
 */
module Content {
  import opened Wrappers
  import opened Store
  import opened Messages
  import opened Hiding

  /** Minimum time between two passes, in ms. */
  const ThrottleDelay := 500

  /** The part of the script's state a hiding pass reads and writes. */
  datatype ScanState = ScanState(isBlocking: bool, lastExecution: int, total: nat, page: seq<Display>)

  datatype ScanResult = ScanResult(state: ScanState, sent: seq<Message>)

  /**
   * removeDistractionVectors at time `now` on a page whose hostname is `host`:
   * nothing with the kill switch off or within the throttle window; otherwise
   * the sweep of this host's targets, the total raised by the pass's count and,
   * when that count is positive, one updateStats message carrying the new total.
   */
  function Scan(s: ScanState, now: int, host: string, m: Matches): (r: ScanResult)
    requires MatchesWithin(m, |s.page|)
    ensures r.state.isBlocking == s.isBlocking && |r.state.page| == |s.page|
    ensures r.state.total >= s.total
    ensures r.sent == [] || (r.sent == [UpdateStats(Some(r.state.total))] && r.state.total > s.total)
    ensures r.state.total > s.total ==> r.sent == [UpdateStats(Some(r.state.total))]
  {
    if !s.isBlocking || now - s.lastExecution < ThrottleDelay then ScanResult(s, [])
    else
      PassTargetsWithin(host, m, |s.page|);
      var swept := Sweep(s.page, PassTargets(host, m));
      var total := s.total + swept.count;
      ScanResult(
        s.(lastExecution := now, total := total, page := swept.page),
        if swept.count > 0 then [UpdateStats(Some(total))] else [])
  }

  /**
   * With the kill switch off, or less than 500 ms after the last pass that ran,
   * a pass changes nothing: no element, no total, no time stamp, no message.
   */
  lemma ScanSkipped(s: ScanState, now: int, host: string, m: Matches)
    requires MatchesWithin(m, |s.page|)
    requires !s.isBlocking || now - s.lastExecution < ThrottleDelay
    ensures Scan(s, now, host, m) == ScanResult(s, [])
  {
  }

  /** A pass that runs stamps `now` and counts each element of this host's queries that was shown, once. */
  lemma ScanCounts(s: ScanState, now: int, host: string, m: Matches)
    requires MatchesWithin(m, |s.page|)
    requires s.isBlocking && now - s.lastExecution >= ThrottleDelay
    ensures WithinPage(PassTargets(host, m), |s.page|)
    ensures Scan(s, now, host, m).state.lastExecution == now
    ensures Scan(s, now, host, m).state.total == s.total + |NewlyHidden(s.page, PassTargets(host, m))|
  {
    PassTargetsWithin(host, m, |s.page|);
    SweepCountsNewlyHidden(s.page, PassTargets(host, m));
  }

  /**
   * A pass that runs leaves no element of this host's queries shown, does not
   * modify one already hidden or removed, and touches no other element.
   */
  lemma ScanHides(s: ScanState, now: int, host: string, m: Matches, i: nat)
    requires MatchesWithin(m, |s.page|) && i < |s.page|
    requires s.isBlocking && now - s.lastExecution >= ThrottleDelay
    ensures i in Indices(PassTargets(host, m)) ==> Scan(s, now, host, m).state.page[i] != Visible
    ensures i !in Indices(PassTargets(host, m)) ==> Scan(s, now, host, m).state.page[i] == s.page[i]
    ensures s.page[i] != Visible ==> Scan(s, now, host, m).state.page[i] == s.page[i]
  {
    var ts := PassTargets(host, m);
    PassTargetsWithin(host, m, |s.page|);
    assert Scan(s, now, host, m).state.page == Sweep(s.page, ts).page;
    if i in Indices(ts) {
      SweepHidesNamed(s.page, ts, i);
    } else {
      SweepLeavesOthers(s.page, ts, i);
    }
  }

  /** A second pass at the same time finds itself throttled and does nothing. */
  lemma ScanTwiceSameTime(s: ScanState, now: int, host: string, m: Matches)
    requires MatchesWithin(m, |s.page|)
    ensures Scan(Scan(s, now, host, m).state, now, host, m) == ScanResult(Scan(s, now, host, m).state, [])
  {
  }

  /** The structural observer's relevance test: some record added nodes or is a childList record. */
  datatype MutationKind = ChildList | Attributes | CharacterData
  datatype MutationRecord = MutationRecord(kind: MutationKind, addedNodes: nat)

  predicate IsRelevant(r: MutationRecord)
  {
    r.addedNodes > 0 || r.kind == ChildList
  }

  function HasRelevantChanges(batch: seq<MutationRecord>): (r: bool)
    ensures r <==> exists k :: 0 <= k < |batch| && IsRelevant(batch[k])
  {
    if batch == [] then false
    else IsRelevant(batch[0]) || HasRelevantChanges(batch[1..])
  }

  class ContentScript {
    var isBlocking: bool
    /** The current MutationObserver, by identity; None is null. */
    var observer: Option<nat>
    /** The observers that are still connected to the page body. */
    var observing: set<nat>
    var nextObserver: nat
    var lastExecution: int
    var totalVectorsBlocked: nat
    var lastUrl: string
    /** Whether document.body carries the class override-active. */
    var bodyActive: bool
    /** Passes scheduled by the navigation observer and not yet run. */
    var pendingScans: nat
    /** The page's elements and their state. */
    const page: array<Display>

    ghost predicate Valid()
      reads this
    {
      observing == (if observer.Some? then {observer.value} else {})
      && (observer.Some? ==> observer.value < nextObserver)
    }

    ghost function View(): ScanState
      reads this, page
    {
      ScanState(isBlocking, lastExecution, totalVectorsBlocked, page[..])
    }

    /** The script as loaded into a page whose address is `href`. */
    constructor (page: array<Display>, href: string)
      ensures Valid() && this.page == page && page[..] == old(page[..])
      ensures isBlocking && observer == None && lastExecution == 0 && totalVectorsBlocked == 0
      ensures lastUrl == href && !bodyActive && pendingScans == 0
    {
      isBlocking := true;
      observer := None;
      observing := {};
      nextObserver := 0;
      lastExecution := 0;
      totalVectorsBlocked := 0;
      lastUrl := href;
      bodyActive := false;
      pendingScans := 0;
      this.page := page;
    }

    /** One forEach over a query's matches: mark each shown element and count it. */
    method HideMatches(indices: seq<nat>, mark: Display) returns (n: nat)
      requires forall k :: 0 <= k < |indices| ==> indices[k] < page.Length
      modifies page
      ensures Swept(page[..], n) == Sweep(old(page[..]), Tagged(indices, mark))
    {
      n := 0;
      var k := 0;
      while k < |indices|
        invariant 0 <= k <= |indices|
        invariant Swept(page[..], n) == Sweep(old(page[..]), Tagged(indices[..k], mark))
      {
        var i := indices[k];
        TaggedSnoc(indices, mark, k);
        if page[i] == Visible {
          page[i] := mark;
          n := n + 1;
        }
        k := k + 1;
      }
      assert indices[..k] == indices;
    }

    /** removeDistractionVectors. */
    method RemoveDistractionVectors(now: int, host: string, m: Matches) returns (sent: seq<Message>)
      requires MatchesWithin(m, page.Length)
      modifies this`lastExecution, this`totalVectorsBlocked, page
      ensures ScanResult(View(), sent) == Scan(old(View()), now, host, m)
    {
      sent := [];
      if !isBlocking {
        return;
      }
      if now - lastExecution < ThrottleDelay {
        return;
      }
      lastExecution := now;
      var vectorsRemoved := HideTargets(host, m);
      if vectorsRemoved > 0 {
        totalVectorsBlocked := totalVectorsBlocked + vectorsRemoved;
        sent := [UpdateStats(Some(totalVectorsBlocked))];
      }
    }

    /** disableProtocol: drops the body class and disconnects the observer; no element is shown again. */
    method DisableProtocol()
      requires Valid()
      modifies this`bodyActive, this`observer, this`observing
      ensures Valid() && !bodyActive && observer == None && observing == {}
    {
      bodyActive := false;
      if observer.Some? {
        observing := observing - {observer.value};
        observer := None;
      }
    }

    /**
     * startObserver: disconnects the previous observer, runs a pass and
     * connects a new observer, so exactly one observer is connected afterwards.
     */
    method StartObserver(now: int, host: string, m: Matches) returns (sent: seq<Message>)
      requires Valid() && MatchesWithin(m, page.Length)
      modifies this`observer, this`observing, this`nextObserver, this`lastExecution, this`totalVectorsBlocked, page
      ensures Valid() && ScanResult(View(), sent) == Scan(old(View()), now, host, m)
      ensures observer == Some(old(nextObserver)) && observing == {old(nextObserver)}
      ensures old(observer).Some? ==> old(observer).value !in observing
    {
      if observer.Some? {
        observing := observing - {observer.value};
      }
      sent := RemoveDistractionVectors(now, host, m);
      observer := Some(nextObserver);
      observing := {nextObserver};
      nextObserver := nextObserver + 1;
    }

    /**
     * enableProtocol (with document.body present): sets the body class, runs a
     * pass and starts the observer, whose own pass at the same time is throttled,
     * so the whole is one pass.
     */
    method EnableProtocol(now: int, host: string, m: Matches) returns (sent: seq<Message>)
      requires Valid() && MatchesWithin(m, page.Length)
      modifies this`bodyActive, this`observer, this`observing, this`nextObserver,
        this`lastExecution, this`totalVectorsBlocked, page
      ensures Valid() && bodyActive
      ensures ScanResult(View(), sent) == Scan(old(View()), now, host, m)
      ensures observer.Some? && observing == {observer.value}
      ensures old(observer).Some? ==> old(observer).value !in observing
    {
      bodyActive := true;
      sent := RemoveDistractionVectors(now, host, m);
      var again := StartObserver(now, host, m);
      ScanTwiceSameTime(old(View()), now, host, m);
      sent := sent + again;
    }

    /** The page is told the blocking state (updateState) and turns the protocol on or off. */
    method HandleUpdateState(blocking: bool, now: int, host: string, m: Matches)
      returns (sent: seq<Message>, response: Response)
      requires Valid() && MatchesWithin(m, page.Length)
      modifies this`isBlocking, this`bodyActive, this`observer, this`observing, this`nextObserver,
        this`lastExecution, this`totalVectorsBlocked, page
      ensures Valid() && isBlocking == blocking && response == Success
      ensures blocking ==>
        (bodyActive && observer.Some? && observing == {observer.value}
         && ScanResult(View(), sent) == Scan(old(View()).(isBlocking := true), now, host, m))
      ensures !blocking ==>
        (!bodyActive && observer == None && observing == {} && sent == []
         && page[..] == old(page[..]) && lastExecution == old(lastExecution)
         && totalVectorsBlocked == old(totalVectorsBlocked))
    {
      isBlocking := blocking;
      if isBlocking {
        sent := EnableProtocol(now, host, m);
      } else {
        DisableProtocol();
        sent := [];
      }
      response := Success;
    }

    /**
     * The script's start: the stored isBlocking, true when it was never written
     * (null reads as off), then the protocol on or off.
     */
    method LoadInitialState(stored: Option<Value>, now: int, host: string, m: Matches) returns (sent: seq<Message>)
      requires Valid() && MatchesWithin(m, page.Length)
      modifies this`isBlocking, this`bodyActive, this`observer, this`observing, this`nextObserver,
        this`lastExecution, this`totalVectorsBlocked, page
      ensures Valid() && isBlocking == (stored == None || Truthy(stored))
      ensures isBlocking ==>
        (bodyActive && observer.Some? && observing == {observer.value}
         && ScanResult(View(), sent) == Scan(old(View()).(isBlocking := true), now, host, m))
      ensures !isBlocking ==>
        (!bodyActive && observer == None && observing == {} && sent == []
         && page[..] == old(page[..]) && lastExecution == old(lastExecution)
         && totalVectorsBlocked == old(totalVectorsBlocked))
    {
      isBlocking := if stored.Some? then Truthy(stored) else true;
      if isBlocking {
        sent := EnableProtocol(now, host, m);
      } else {
        DisableProtocol();
        sent := [];
      }
    }

    /** The structural observer's callback: a pass iff blocking is on and the batch is relevant. */
    method OnMutations(batch: seq<MutationRecord>, now: int, host: string, m: Matches) returns (sent: seq<Message>)
      requires MatchesWithin(m, page.Length)
      modifies this`lastExecution, this`totalVectorsBlocked, page
      ensures isBlocking && HasRelevantChanges(batch) ==> ScanResult(View(), sent) == Scan(old(View()), now, host, m)
      ensures !(isBlocking && HasRelevantChanges(batch)) ==> View() == old(View()) && sent == []
    {
      sent := [];
      if !isBlocking {
        return;
      }
      var hasRelevantChanges := HasRelevantChanges(batch);
      if hasRelevantChanges {
        sent := RemoveDistractionVectors(now, host, m);
      }
    }

    /**
     * The navigation observer's callback: when the address differs from the last
     * one seen it is recorded and, with blocking on, a pass is scheduled.
     */
    method OnTitleMutation(href: string)
      modifies this`lastUrl, this`pendingScans
      ensures lastUrl == href
      ensures pendingScans == old(pendingScans) + (if href != old(lastUrl) && isBlocking then 1 else 0)
    {
      var currentUrl := href;
      if currentUrl != lastUrl {
        lastUrl := currentUrl;
        if isBlocking {
          pendingScans := pendingScans + 1;
        }
      }
    }

    /** A pass scheduled by the navigation observer runs, 1000 ms later. */
    method RunScheduledScan(now: int, host: string, m: Matches) returns (sent: seq<Message>)
      requires pendingScans > 0 && MatchesWithin(m, page.Length)
      modifies this`pendingScans, this`lastExecution, this`totalVectorsBlocked, page
      ensures pendingScans == old(pendingScans) - 1
      ensures ScanResult(View(), sent) == Scan(old(View()), now, host, m)
    {
      pendingScans := pendingScans - 1;
      sent := RemoveDistractionVectors(now, host, m);
    }

    /** The two site blocks of the pass, counting what they hide. */
    method HideTargets(host: string, m: Matches) returns (vectorsRemoved: nat)
      requires MatchesWithin(m, page.Length)
      modifies page
      ensures WithinPage(PassTargets(host, m), page.Length)
      ensures Swept(page[..], vectorsRemoved) == Sweep(old(page[..]), PassTargets(host, m))
    {
      ghost var start := page[..];
      PassTargetsWithin(host, m, page.Length);
      vectorsRemoved := 0;
      var n := HideInstagram(host, m);
      vectorsRemoved := vectorsRemoved + n;
      n := HideYouTube(host, m);
      vectorsRemoved := vectorsRemoved + n;
      SweepAppend(start, InstagramTargets(host, m), YouTubeTargets(host, m));
    }

    /** The Instagram half of the pass. */
    method HideInstagram(host: string, m: Matches) returns (n: nat)
      requires MatchesWithin(m, page.Length)
      modifies page
      ensures WithinPage(InstagramTargets(host, m), page.Length)
      ensures Swept(page[..], n) == Sweep(old(page[..]), InstagramTargets(host, m))
    {
      PassTargetsWithin(host, m, page.Length);
      n := 0;
      if Includes(host, Instagram) {
        ghost var start := page[..];
        ghost var done: seq<Target> := [];
        n, done := Step(m.reelsLinks, Hidden, n, start, done);
        assert done == Tagged(m.reelsLinks, Hidden);
        n, done := Step(m.reelsNavLinks, Hidden, n, start, done);
      }
    }

    /** The YouTube half of the pass. */
    method HideYouTube(host: string, m: Matches) returns (n: nat)
      requires MatchesWithin(m, page.Length)
      modifies page
      ensures WithinPage(YouTubeTargets(host, m), page.Length)
      ensures Swept(page[..], n) == Sweep(old(page[..]), YouTubeTargets(host, m))
    {
      PassTargetsWithin(host, m, page.Length);
      n := 0;
      if Includes(host, YouTube) {
        ghost var start := page[..];
        ghost var done: seq<Target> := [];
        n, done := Step(m.shortsShelves, Removed, n, start, done);
        assert done == Tagged(m.shortsShelves, Removed);
        n, done := Step(m.shortsGuideEntries, Hidden, n, start, done);
        n, done := Step(m.shortsTabs, Hidden, n, start, done);
        n, done := Step(m.shortsVideos, Hidden, n, start, done);
      }
    }

    /** One query of the pass, with the targets done so far carried along for the proof. */
    method Step(indices: seq<nat>, mark: Display, removed: nat, ghost start: seq<Display>, ghost done: seq<Target>)
      returns (removed': nat, ghost done': seq<Target>)
      requires |start| == page.Length && WithinPage(done, page.Length)
      requires forall k :: 0 <= k < |indices| ==> indices[k] < page.Length
      requires Sweep(start, done) == Swept(page[..], removed)
      modifies page
      ensures done' == done + Tagged(indices, mark) && WithinPage(done', page.Length)
      ensures Sweep(start, done') == Swept(page[..], removed')
    {
      var n := HideMatches(indices, mark);
      removed' := removed + n;
      done' := done + Tagged(indices, mark);
      SweepAppend(start, done, Tagged(indices, mark));
    }
  }
}
