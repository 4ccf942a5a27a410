/** One pass of the poll-diff-notify loop: for each configured feed URL in
    order, fetch the feed, compare its first entry's update marker with the
    one last seen for that URL, and, when they differ, record the new marker
    and try to send a notification. The fetch and the send are external: each
    position of the pass gets its fetch outcome and its delivery result as
    inputs. */
module Poll {
  import opened Feed

  datatype Option<T> = None | Some(value: T)

  /** One attempted notification: the feed it is about, the message text, and
      whether the chat server accepted it (the two log lines of a send). */
  datatype Notice = Notice(feedURL: string, message: string, delivered: bool)

  /** The map after one feed has been processed and the notice, if any. */
  datatype StepResult = StepResult(updates: map<string, string>, notice: Option<Notice>)

  /** The map after a whole pass and the notices in the order they were sent. */
  datatype CycleResult = CycleResult(updates: map<string, string>, notices: seq<Notice>)

  /** Reading a Go map: a missing key yields the zero value, the empty string. */
  function Lookup(m: map<string, string>, url: string): (v: string)
    ensures v != "" ==> url in m && m[url] == v
    ensures url in m ==> v == m[url]
  {
    if url in m then m[url] else ""
  }

  /** The decision rule: the fetch gave at least one entry and the first
      entry's marker differs from what `m` reads for the URL. */
  predicate IsNew(m: map<string, string>, url: string, o: FetchOutcome)
    ensures IsNew(m, url, o) ==> HasHead(o)
    ensures IsNew(m, url, o) && url !in m ==> Head(o).updated != ""
  {
    HasHead(o) && Head(o).updated != Lookup(m, url)
  }

  /** The work done for one configured URL. The marker is recorded before the
      send, so the new map does not depend on `delivered`. */
  function Step(m: map<string, string>, url: string, o: FetchOutcome, delivered: bool): (r: StepResult)
    ensures r.notice.Some? <==> IsNew(m, url, o)
    ensures r.notice.Some? ==> r.notice.value == Notice(url, Message(Head(o)), delivered)
    ensures r.notice.Some? ==> r.updates == m[url := Head(o).updated]
    ensures r.notice.None? ==> r.updates == m
    ensures Lookup(r.updates, url) == if HasHead(o) then Head(o).updated else Lookup(m, url)
  {
    if IsNew(m, url, o) then
      StepResult(m[url := Head(o).updated], Some(Notice(url, Message(Head(o)), delivered)))
    else
      StepResult(m, None)
  }

  /** The notices a step contributes: none or one. */
  function Emitted(s: StepResult): seq<Notice>
  {
    if s.notice.Some? then [s.notice.value] else []
  }

  /** A whole pass, position by position: `fetched[i]` is what fetching
      `urls[i]` gave and `delivered[i]` whether sending its notice would
      succeed. */
  function Cycle(m: map<string, string>, urls: seq<string>, fetched: seq<FetchOutcome>, delivered: seq<bool>): (r: CycleResult)
    requires |fetched| == |urls| && |delivered| == |urls|
    ensures |r.notices| <= |urls|
    decreases |urls|
  {
    if urls == [] then CycleResult(m, [])
    else
      var s := Step(m, urls[0], fetched[0], delivered[0]);
      var rest := Cycle(s.updates, urls[1..], fetched[1..], delivered[1..]);
      CycleResult(rest.updates, Emitted(s) + rest.notices)
  }

  /** A pass from position `i` on is the step at `i` followed by the pass
      from `i + 1` on. */
  lemma CycleAt(m: map<string, string>, urls: seq<string>, fetched: seq<FetchOutcome>, delivered: seq<bool>, i: nat)
    requires |fetched| == |urls| && |delivered| == |urls| && i < |urls|
    ensures var s := Step(m, urls[i], fetched[i], delivered[i]);
            var rest := Cycle(s.updates, urls[i + 1..], fetched[i + 1..], delivered[i + 1..]);
            Cycle(m, urls[i..], fetched[i..], delivered[i..]) == CycleResult(rest.updates, Emitted(s) + rest.notices)
  {
  }

  /** Concatenation is associative (stated once so the loop proof stays cheap). */
  lemma ConcatAssoc<T>(a: seq<T>, b: seq<T>, c: seq<T>)
    ensures (a + b) + c == a + (b + c)
  {
  }

  /** The poll loop's state: the last marker seen per feed URL. */
  class Poller {
    var lastUpdates: map<string, string>

    /** The loop starts with nothing seen. */
    constructor ()
      ensures lastUpdates == map[]
    {
      lastUpdates := map[];
    }

    /** One pass over the configured URLs; returns the notices attempted. */
    method RunCycle(feedURLs: seq<string>, fetched: seq<FetchOutcome>, delivered: seq<bool>)
      returns (notices: seq<Notice>)
      requires |fetched| == |feedURLs| && |delivered| == |feedURLs|
      modifies this
      ensures lastUpdates == Cycle(old(lastUpdates), feedURLs, fetched, delivered).updates
      ensures notices == Cycle(old(lastUpdates), feedURLs, fetched, delivered).notices
    {
      ghost var whole := Cycle(lastUpdates, feedURLs, fetched, delivered);
      notices := [];
      for i := 0 to |feedURLs|
        invariant Cycle(lastUpdates, feedURLs[i..], fetched[i..], delivered[i..]).updates == whole.updates
        invariant notices + Cycle(lastUpdates, feedURLs[i..], fetched[i..], delivered[i..]).notices == whole.notices
      {
        CycleAt(lastUpdates, feedURLs, fetched, delivered, i);
        ghost var step := Step(lastUpdates, feedURLs[i], fetched[i], delivered[i]);
        ghost var sentBefore := notices;
        ghost var rest := Cycle(step.updates, feedURLs[i + 1..], fetched[i + 1..], delivered[i + 1..]);
        assert sentBefore + (Emitted(step) + rest.notices) == whole.notices;
        var feedURL := feedURLs[i];
        var outcome := fetched[i];
        if outcome.FetchErr? {
          assert step.updates == lastUpdates && Emitted(step) == [];
          assert Emitted(step) + rest.notices == rest.notices;
          assert notices == sentBefore;
          assert notices + rest.notices == whole.notices;
          continue;
        }
        var entries := outcome.entries;
        if |entries| > 0 && entries[0].updated != Lookup(lastUpdates, feedURL) {
          lastUpdates := lastUpdates[feedURL := entries[0].updated];
          var message := Message(entries[0]);
          var ok := delivered[i];
          notices := notices + [Notice(feedURL, message, ok)];
        }
        assert lastUpdates == step.updates && notices == sentBefore + Emitted(step);
        ConcatAssoc(sentBefore, Emitted(step), rest.notices);
      }
    }
  }
}
