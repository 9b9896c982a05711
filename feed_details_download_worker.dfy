/** The background job that fetches the details of every remote photo of the
    feed, one at a time, stopping at the first failure, and decides between
    success, retry and failure. */
module FeedDetailsDownloadWorker {
  import opened Wrappers

  /** A feed item; `remoteId` is `id.findRemote`, absent for local-only media. */
  datatype MediaItem = MediaItem(remoteId: Option<string>)

  datatype FeedGroup = FeedGroup(mediaItems: seq<MediaItem>)

  /** What refreshing one item's details did; only CHANGED is acted upon. */
  datatype MediaOperationResult = Changed | Skipped

  /** The job's outcome as the job scheduler sees it. */
  datatype WorkResult = Success | Retry | Failure

  /** Observable steps of the job, in the order they happen. */
  datatype WorkEvent =
    | SetProgress(percent: int)
    | RefreshDetails(id: string)
    | Pause(millis: nat)
    | StepProgress(current: nat, total: nat)

  const MaxAttempts := 4
  const PauseAfterChange := 300

  /** `flatMap { it.mediaItems }` over the groups. */
  function AllItems(groups: seq<FeedGroup>): (r: seq<MediaItem>)
  {
    if groups == [] then [] else groups[0].mediaItems + AllItems(groups[1..])
  }

  /** `mapNotNull { it.id.findRemote }`. */
  function RemoteIds(items: seq<MediaItem>): (r: seq<string>)
    ensures |r| <= |items|
    ensures forall id :: id in r <==> MediaItem(Some(id)) in items
  {
    if items == [] then []
    else (if items[0].remoteId.Some? then [items[0].remoteId.value] else []) + RemoteIds(items[1..])
  }

  /** The ids the job works through: the remote ids of all groups' items, in
      group order. */
  function ItemsToProcess(groups: seq<FeedGroup>): (r: seq<string>)
    ensures forall id :: id in r <==> exists g :: g in groups && MediaItem(Some(id)) in g.mediaItems
  {
    ItemsMembership(groups);
    RemoteIds(AllItems(groups))
  }

  /** The items of consecutive groups follow each other, each group's in its
      own order. */
  lemma {:induction false} AllItemsConcat(a: seq<FeedGroup>, b: seq<FeedGroup>)
    ensures AllItems(a + b) == AllItems(a) + AllItems(b)
    ensures AllItems([]) == []
    ensures forall g :: AllItems([g]) == g.mediaItems
  {
    if a != [] {
      assert (a + b)[0] == a[0];
      assert (a + b)[1..] == a[1..] + b;
      AllItemsConcat(a[1..], b);
      assert AllItems(a + b) == a[0].mediaItems + AllItems(a[1..] + b);
    } else {
      assert a + b == b;
    }
    forall g ensures AllItems([g]) == g.mediaItems {
      assert [g][1..] == [];
    }
  }

  /** The remote ids keep the order and multiplicity of their items. */
  lemma {:induction false} RemoteIdsConcat(a: seq<MediaItem>, b: seq<MediaItem>)
    ensures RemoteIds(a + b) == RemoteIds(a) + RemoteIds(b)
  {
    if a != [] {
      var head := if a[0].remoteId.Some? then [a[0].remoteId.value] else [];
      assert (a + b)[0] == a[0];
      assert (a + b)[1..] == a[1..] + b;
      calc {
        RemoteIds(a + b);
        head + RemoteIds(a[1..] + b);
        { RemoteIdsConcat(a[1..], b); }
        head + (RemoteIds(a[1..]) + RemoteIds(b));
        (head + RemoteIds(a[1..])) + RemoteIds(b);
        RemoteIds(a) + RemoteIds(b);
      }
    } else {
      assert a + b == b;
    }
  }

  /** A local item contributes no id, a remote one exactly its id. */
  lemma {:induction false} RemoteIdsOne(it: MediaItem)
    ensures RemoteIds([it]) == if it.remoteId.Some? then [it.remoteId.value] else []
  {
    assert [it][1..] == [];
  }

  /** The job works through the groups in order, and through each group's
      remote items in their order: the ids of consecutive groups follow each
      other, and one group contributes the remote ids of its items. */
  lemma {:induction false} ItemsToProcessConcat(a: seq<FeedGroup>, b: seq<FeedGroup>)
    ensures ItemsToProcess(a + b) == ItemsToProcess(a) + ItemsToProcess(b)
    ensures forall g :: ItemsToProcess([g]) == RemoteIds(g.mediaItems)
  {
    AllItemsConcat(a, b);
    RemoteIdsConcat(AllItems(a), AllItems(b));
    forall g ensures ItemsToProcess([g]) == RemoteIds(g.mediaItems) {
      AllItemsConcat([g], []);
    }
  }

  lemma {:induction false} ItemsMembership(groups: seq<FeedGroup>)
    ensures forall it :: it in AllItems(groups) <==> exists g :: g in groups && it in g.mediaItems
  {
    if groups != [] {
      ItemsMembership(groups[1..]);
      forall it ensures it in AllItems(groups) <==> exists g :: g in groups && it in g.mediaItems {
        if it in groups[0].mediaItems {
          assert groups[0] in groups;
        }
        if exists g :: g in groups && it in g.mediaItems {
          var g :| g in groups && it in g.mediaItems;
          if g != groups[0] {
            assert g in groups[1..];
          }
        }
      }
    }
  }

  /** `failOrRetry`: retry while fewer than four attempts have run. */
  function FailOrRetry(runAttemptCount: int): (r: WorkResult)
    ensures r == Retry <==> runAttemptCount < MaxAttempts
    ensures r == Failure <==> runAttemptCount >= MaxAttempts
  {
    if runAttemptCount < MaxAttempts then Retry else Failure
  }

  /** The steps for item `i` of `total`: refresh it; on success pause if its
      details changed, then report progress; on failure nothing more. */
  function ItemEvents(id: string, i: nat, total: nat, outcome: Result<MediaOperationResult>): seq<WorkEvent> {
    match outcome
    case Err(_) => [RefreshDetails(id)]
    case Ok(r) => [RefreshDetails(id)] + (if r == Changed then [Pause(PauseAfterChange)] else []) + [StepProgress(i, total)]
  }

  lemma {:induction false} ItemEventsShape(id: string, i: nat, total: nat, outcome: Result<MediaOperationResult>)
    ensures var e := ItemEvents(id, i, total, outcome);
      Refreshed(e) == [id] &&
      Progress(e) == (if outcome.Ok? then [(i, total)] else [])
  {
    var e := ItemEvents(id, i, total, outcome);
    var last := [StepProgress(i, total)];
    assert last[0] == StepProgress(i, total) && last[1..] == [];
    assert Refreshed(last[1..]) == [] && Progress(last[1..]) == [];
    assert Refreshed(last) == [] && Progress(last) == [(i, total)];
    if outcome.Ok? && outcome.value == Changed {
      var tail := [Pause(PauseAfterChange)] + last;
      assert tail[0] == Pause(PauseAfterChange) && tail[1..] == last;
      assert Refreshed(tail) == [] && Progress(tail) == [(i, total)];
      assert e == [RefreshDetails(id)] + tail;
      assert e[0] == RefreshDetails(id) && e[1..] == tail;
    } else if outcome.Ok? {
      assert e == [RefreshDetails(id)] + last;
      assert e[0] == RefreshDetails(id) && e[1..] == last;
    } else {
      assert e == [RefreshDetails(id)];
      assert e[1..] == [];
    }
  }

  /** Index of the first item whose refresh fails, or the number of items. */
  function FirstFailure(ids: seq<string>, refresh: string -> Result<MediaOperationResult>): (k: nat)
    ensures k <= |ids|
    ensures forall i :: 0 <= i < k ==> refresh(ids[i]).Ok?
    ensures k < |ids| ==> refresh(ids[k]).Err?
  {
    if ids == [] then 0
    else if refresh(ids[0]).Err? then 0
    else 1 + FirstFailure(ids[1..], refresh)
  }

  /** The steps for the first `n` items. */
  function Steps(ids: seq<string>, refresh: string -> Result<MediaOperationResult>, n: nat): seq<WorkEvent>
    requires n <= |ids|
  {
    if n == 0 then [] else Steps(ids, refresh, n - 1) + ItemEvents(ids[n - 1], n - 1, |ids|, refresh(ids[n - 1]))
  }

  /** `work()`: the job's steps and its result. The refresh of one item's
      details is the parameter `refresh`. */
  method Work(groups: seq<FeedGroup>, refresh: string -> Result<MediaOperationResult>, runAttemptCount: int)
    returns (result: WorkResult, events: seq<WorkEvent>)
    ensures var ids := ItemsToProcess(groups);
      var k := FirstFailure(ids, refresh);
      events == [SetProgress(0)] + Steps(ids, refresh, if k < |ids| then k + 1 else k)
    ensures var ids := ItemsToProcess(groups);
      (result == Success <==> forall i :: 0 <= i < |ids| ==> refresh(ids[i]).Ok?) &&
      (result != Success ==> result == FailOrRetry(runAttemptCount))
  {
    events := [SetProgress(0)];
    var ids := ItemsToProcess(groups);
    var total := |ids|;
    var failed := false;
    var i := 0;
    while i < total
      invariant 0 <= i <= total
      invariant !failed
      invariant forall j :: 0 <= j < i ==> refresh(ids[j]).Ok?
      invariant events == [SetProgress(0)] + Steps(ids, refresh, i)
      decreases total - i
    {
      var outcome := refresh(ids[i]);
      events := events + [RefreshDetails(ids[i])];
      if outcome.Err? {
        failed := true;
        break;
      }
      if outcome.value == Changed {
        events := events + [Pause(PauseAfterChange)];
      }
      events := events + [StepProgress(i, total)];
      i := i + 1;
    }
    FirstFailureAt(ids, refresh, i);
    AllOkIff(ids, refresh);
    if failed {
      result := FailOrRetry(runAttemptCount);
    } else {
      result := Success;
    }
  }

  /** Every refresh succeeds exactly when there is no first failure. */
  lemma {:induction false} AllOkIff(ids: seq<string>, refresh: string -> Result<MediaOperationResult>)
    ensures (forall i :: 0 <= i < |ids| ==> refresh(ids[i]).Ok?) <==> FirstFailure(ids, refresh) == |ids|
  {
  }

  /** The first failure is where the refreshes that all succeeded end. */
  lemma {:induction false} FirstFailureAt(ids: seq<string>, refresh: string -> Result<MediaOperationResult>, k: nat)
    requires k <= |ids|
    requires forall j :: 0 <= j < k ==> refresh(ids[j]).Ok?
    requires k < |ids| ==> refresh(ids[k]).Err?
    ensures FirstFailure(ids, refresh) == k
  {
    if k > 0 {
      FirstFailureAt(ids[1..], refresh, k - 1);
    }
  }

  /** The ids refreshed by a list of steps, in order. */
  function Refreshed(events: seq<WorkEvent>): seq<string> {
    if events == [] then []
    else (if events[0].RefreshDetails? then [events[0].id] else []) + Refreshed(events[1..])
  }

  lemma {:induction false} RefreshedConcat(a: seq<WorkEvent>, b: seq<WorkEvent>)
    ensures Refreshed(a + b) == Refreshed(a) + Refreshed(b)
  {
    if a == [] {
      assert a + b == b;
    } else {
      var head := if a[0].RefreshDetails? then [a[0].id] else [];
      assert (a + b)[0] == a[0];
      assert (a + b)[1..] == a[1..] + b;
      calc {
        Refreshed(a + b);
        head + Refreshed(a[1..] + b);
        { RefreshedConcat(a[1..], b); }
        head + (Refreshed(a[1..]) + Refreshed(b));
        (head + Refreshed(a[1..])) + Refreshed(b);
        Refreshed(a) + Refreshed(b);
      }
    }
  }

  /** Each item's steps refresh exactly that item. */
  lemma {:induction false} RefreshedStep(ids: seq<string>, refresh: string -> Result<MediaOperationResult>, n: nat)
    requires 0 < n <= |ids|
    ensures Refreshed(Steps(ids, refresh, n)) == Refreshed(Steps(ids, refresh, n - 1)) + [ids[n - 1]]
  {
    var prefix := Steps(ids, refresh, n - 1);
    var item := ItemEvents(ids[n - 1], n - 1, |ids|, refresh(ids[n - 1]));
    calc {
      Refreshed(Steps(ids, refresh, n));
      Refreshed(prefix + item);
      { RefreshedConcat(prefix, item); }
      Refreshed(prefix) + Refreshed(item);
      { ItemEventsShape(ids[n - 1], n - 1, |ids|, refresh(ids[n - 1])); }
      Refreshed(prefix) + [ids[n - 1]];
    }
  }

  lemma {:induction false} RefreshedSteps(ids: seq<string>, refresh: string -> Result<MediaOperationResult>, n: nat)
    requires n <= |ids|
    ensures Refreshed(Steps(ids, refresh, n)) == ids[..n]
  {
    if n > 0 {
      calc {
        Refreshed(Steps(ids, refresh, n));
        { RefreshedStep(ids, refresh, n); }
        Refreshed(Steps(ids, refresh, n - 1)) + [ids[n - 1]];
        { RefreshedSteps(ids, refresh, n - 1); }
        ids[..n - 1] + [ids[n - 1]];
        { assert ids[..n] == ids[..n - 1] + [ids[n - 1]]; }
        ids[..n];
      }
    }
  }

  /** Items are refreshed in feed order, and none after the first failure:
      the refreshed ids are the items up to and including the first one whose
      refresh failed, or all of them. */
  lemma {:induction false} RefreshesStopAtFirstFailure(groups: seq<FeedGroup>, refresh: string -> Result<MediaOperationResult>)
    ensures var ids := ItemsToProcess(groups);
      var k := FirstFailure(ids, refresh);
      Refreshed(Steps(ids, refresh, if k < |ids| then k + 1 else k)) == ids[..if k < |ids| then k + 1 else k]
  {
    var ids := ItemsToProcess(groups);
    var k := FirstFailure(ids, refresh);
    RefreshedSteps(ids, refresh, if k < |ids| then k + 1 else k);
  }

  /** Every pause directly follows the refresh of an item whose details
      changed. */
  lemma {:induction false} PauseOnlyAfterChange(ids: seq<string>, refresh: string -> Result<MediaOperationResult>, n: nat, j: nat)
    requires n <= |ids|
    requires j < |Steps(ids, refresh, n)| && Steps(ids, refresh, n)[j].Pause?
    ensures j > 0 && Steps(ids, refresh, n)[j - 1].RefreshDetails?
    ensures refresh(Steps(ids, refresh, n)[j - 1].id) == Ok(Changed)
  {
    var prefix := Steps(ids, refresh, n - 1);
    var item := ItemEvents(ids[n - 1], n - 1, |ids|, refresh(ids[n - 1]));
    assert Steps(ids, refresh, n) == prefix + item;
    if j < |prefix| {
      PauseOnlyAfterChange(ids, refresh, n - 1, j);
    } else {
      assert item[j - |prefix|].Pause?;
    }
  }

  /** Progress after each processed item names that item's 0-based index and
      the total, in order: the k-th progress report is (k, total). */
  function Progress(events: seq<WorkEvent>): seq<(int, int)> {
    if events == [] then []
    else (if events[0].StepProgress? then [(events[0].current, events[0].total)] else []) + Progress(events[1..])
  }

  lemma {:induction false} ProgressConcat(a: seq<WorkEvent>, b: seq<WorkEvent>)
    ensures Progress(a + b) == Progress(a) + Progress(b)
  {
    if a == [] {
      assert a + b == b;
    } else {
      var head := if a[0].StepProgress? then [(a[0].current, a[0].total)] else [];
      assert (a + b)[0] == a[0];
      assert (a + b)[1..] == a[1..] + b;
      calc {
        Progress(a + b);
        head + Progress(a[1..] + b);
        { ProgressConcat(a[1..], b); }
        head + (Progress(a[1..]) + Progress(b));
        (head + Progress(a[1..])) + Progress(b);
        Progress(a) + Progress(b);
      }
    }
  }

  /** A successfully refreshed item adds exactly one progress report. */
  lemma {:induction false} ProgressStep(ids: seq<string>, refresh: string -> Result<MediaOperationResult>, n: nat)
    requires 0 < n <= |ids| && refresh(ids[n - 1]).Ok?
    ensures Progress(Steps(ids, refresh, n)) == Progress(Steps(ids, refresh, n - 1)) + [(n - 1, |ids|)]
  {
    var prefix := Steps(ids, refresh, n - 1);
    var item := ItemEvents(ids[n - 1], n - 1, |ids|, refresh(ids[n - 1]));
    calc {
      Progress(Steps(ids, refresh, n));
      Progress(prefix + item);
      { ProgressConcat(prefix, item); }
      Progress(prefix) + Progress(item);
      { ItemEventsShape(ids[n - 1], n - 1, |ids|, refresh(ids[n - 1])); }
      Progress(prefix) + [(n - 1, |ids|)];
    }
  }

  lemma {:induction false} ProgressSteps(ids: seq<string>, refresh: string -> Result<MediaOperationResult>, n: nat)
    requires n <= FirstFailure(ids, refresh)
    ensures |Progress(Steps(ids, refresh, n))| == n
    ensures forall k :: 0 <= k < n ==> Progress(Steps(ids, refresh, n))[k] == (k, |ids|)
  {
    if n > 0 {
      ProgressSteps(ids, refresh, n - 1);
      ProgressStep(ids, refresh, n);
    }
  }
}
