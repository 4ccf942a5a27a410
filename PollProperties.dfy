/** What one pass of the poll loop promises: when a feed is notified, what the
    tracker reads afterwards, which keys it touches, that delivery failures
    change nothing, that a repeated pass is quiet, and that only the first
    entry of a feed matters. */
module PollProperties {
  import opened Feed
  import opened Poll

  /** The notices of `ns` that are about feed `url`, in order. */
  function NoticesFor(ns: seq<Notice>, url: string): seq<Notice>
  {
    if ns == [] then []
    else (if ns[0].feedURL == url then [ns[0]] else []) + NoticesFor(ns[1..], url)
  }

  lemma {:induction false} NoticesForAppend(a: seq<Notice>, b: seq<Notice>, url: string)
    ensures NoticesFor(a + b, url) == NoticesFor(a, url) + NoticesFor(b, url)
  {
    if a == [] {
      assert a + b == b;
    } else {
      var head := if a[0].feedURL == url then [a[0]] else [];
      assert (a + b)[0] == a[0] && (a + b)[1..] == a[1..] + b;
      NoticesForAppend(a[1..], b, url);
      calc {
        NoticesFor(a + b, url);
        head + NoticesFor(a[1..] + b, url);
        head + (NoticesFor(a[1..], url) + NoticesFor(b, url));
        { ConcatAssoc(head, NoticesFor(a[1..], url), NoticesFor(b, url)); }
        (head + NoticesFor(a[1..], url)) + NoticesFor(b, url);
      }
    }
  }

  /** `url` is listed at position `i` and nowhere else. */
  predicate ListedOnceAt(urls: seq<string>, i: nat)
  {
    i < |urls| && forall j :: 0 <= j < |urls| && j != i ==> urls[j] != urls[i]
  }

  /** The marker the tracker reads for `url` after a pass that started from
      reading `start`: the first entry's marker at the last position of `url`
      whose fetch gave entries, or `start` when there is none. */
  function LastMarker(start: string, urls: seq<string>, fetched: seq<FetchOutcome>, url: string): string
    requires |fetched| == |urls|
    decreases |urls|
  {
    if urls == [] then start
    else
      var next := if urls[0] == url && HasHead(fetched[0]) then Head(fetched[0]).updated else start;
      LastMarker(next, urls[1..], fetched[1..], url)
  }

  /** Every two positions of the same URL whose fetches gave entries agree on
      the first entry's marker. Holds whenever no URL is listed twice
      (`DistinctConsistent`). */
  predicate Consistent(urls: seq<string>, fetched: seq<FetchOutcome>)
    requires |fetched| == |urls|
  {
    forall i, j :: 0 <= i < |urls| && 0 <= j < |urls| && urls[i] == urls[j] && HasHead(fetched[i]) && HasHead(fetched[j])
      ==> Head(fetched[i]).updated == Head(fetched[j]).updated
  }

  /** A URL list without repetitions is always `Consistent`. */
  lemma DistinctConsistent(urls: seq<string>, fetched: seq<FetchOutcome>)
    requires |fetched| == |urls|
    requires forall i, j :: 0 <= i < j < |urls| ==> urls[i] != urls[j]
    ensures Consistent(urls, fetched)
  {
  }

  /** The first entry a fetch offers in document order, if any. */
  function FirstEntry(o: FetchOutcome): Option<Entry>
  {
    if HasHead(o) then Some(Head(o)) else None
  }

  /** `s` without its element at position `i`. */
  function Without<T>(s: seq<T>, i: nat): (r: seq<T>)
    requires i < |s|
    ensures |r| == |s| - 1
    ensures forall k :: 0 <= k < i ==> r[k] == s[k]
    ensures forall k :: i <= k < |r| ==> r[k] == s[k + 1]
  {
    s[..i] + s[i + 1..]
  }

  /** After the pass, the tracker reads for every URL the marker of its last
      successful, non-empty fetch, and otherwise what it read before. The
      delivery results play no part. */
  lemma {:induction false} CycleLookup(m: map<string, string>, urls: seq<string>, fetched: seq<FetchOutcome>,
                                       delivered: seq<bool>, url: string)
    requires |fetched| == |urls| && |delivered| == |urls|
    ensures Lookup(Cycle(m, urls, fetched, delivered).updates, url) == LastMarker(Lookup(m, url), urls, fetched, url)
    decreases |urls|
  {
    if urls != [] {
      var s := Step(m, urls[0], fetched[0], delivered[0]);
      assert Lookup(s.updates, url) == if urls[0] == url && HasHead(fetched[0]) then Head(fetched[0]).updated else Lookup(m, url);
      CycleLookup(s.updates, urls[1..], fetched[1..], delivered[1..], url);
    }
  }

  /** A pass never removes a key, and adds only keys of configured URLs. */
  lemma {:induction false} CycleKeys(m: map<string, string>, urls: seq<string>, fetched: seq<FetchOutcome>, delivered: seq<bool>)
    requires |fetched| == |urls| && |delivered| == |urls|
    ensures var r := Cycle(m, urls, fetched, delivered);
            m.Keys <= r.updates.Keys && forall url :: url in r.updates && url !in m ==> url in urls
    decreases |urls|
  {
    if urls != [] {
      var s := Step(m, urls[0], fetched[0], delivered[0]);
      CycleKeys(s.updates, urls[1..], fetched[1..], delivered[1..]);
    }
  }

  /** Only keys of configured URLs are ever written: any other key keeps its
      presence and its value, and no notice is about it. */
  lemma {:induction false} OnlyListedKeysWritten(m: map<string, string>, urls: seq<string>, fetched: seq<FetchOutcome>,
                                                 delivered: seq<bool>, url: string)
    requires |fetched| == |urls| && |delivered| == |urls|
    requires url !in urls
    ensures var r := Cycle(m, urls, fetched, delivered);
            (url in r.updates <==> url in m) && (url in m ==> r.updates[url] == m[url]) && NoticesFor(r.notices, url) == []
    decreases |urls|
  {
    if urls != [] {
      var s := Step(m, urls[0], fetched[0], delivered[0]);
      var rest := Cycle(s.updates, urls[1..], fetched[1..], delivered[1..]);
      assert urls[0] != url;
      OnlyListedKeysWritten(s.updates, urls[1..], fetched[1..], delivered[1..], url);
      NoticesForAppend(Emitted(s), rest.notices, url);
    }
  }

  /** The decision rule for the first URL of a pass when it is not listed
      again: `NotifiedIffNew` at position 0. */
  lemma NotifiedIffNewFirst(m: map<string, string>, urls: seq<string>, fetched: seq<FetchOutcome>, delivered: seq<bool>)
    requires |fetched| == |urls| && |delivered| == |urls|
    requires urls != [] && urls[0] !in urls[1..]
    ensures var r := Cycle(m, urls, fetched, delivered);
            NoticesFor(r.notices, urls[0]) ==
              if IsNew(m, urls[0], fetched[0]) then [Notice(urls[0], Message(Head(fetched[0])), delivered[0])] else []
    ensures Lookup(Cycle(m, urls, fetched, delivered).updates, urls[0]) ==
              if HasHead(fetched[0]) then Head(fetched[0]).updated else Lookup(m, urls[0])
  {
    var u := urls[0];
    var s := Step(m, u, fetched[0], delivered[0]);
    var rest := Cycle(s.updates, urls[1..], fetched[1..], delivered[1..]);
    assert Cycle(m, urls, fetched, delivered) == CycleResult(rest.updates, Emitted(s) + rest.notices);
    NoticesForAppend(Emitted(s), rest.notices, u);
    OnlyListedKeysWritten(s.updates, urls[1..], fetched[1..], delivered[1..], u);
    assert NoticesFor(Emitted(s), u) == Emitted(s);
  }

  /** The decision rule is unaffected by a first step about another URL:
      what holds of `url` for the rest of the pass holds for the whole pass. */
  lemma NotifiedAfterOtherStep(m: map<string, string>, urls: seq<string>, fetched: seq<FetchOutcome>,
                               delivered: seq<bool>, url: string, o: FetchOutcome, d: bool)
    requires |fetched| == |urls| && |delivered| == |urls|
    requires urls != [] && urls[0] != url
    requires var s := Step(m, urls[0], fetched[0], delivered[0]);
             var rest := Cycle(s.updates, urls[1..], fetched[1..], delivered[1..]);
             NoticesFor(rest.notices, url) == (if IsNew(s.updates, url, o) then [Notice(url, Message(Head(o)), d)] else []) &&
             Lookup(rest.updates, url) == if HasHead(o) then Head(o).updated else Lookup(s.updates, url)
    ensures var r := Cycle(m, urls, fetched, delivered);
            NoticesFor(r.notices, url) == (if IsNew(m, url, o) then [Notice(url, Message(Head(o)), d)] else []) &&
            Lookup(r.updates, url) == if HasHead(o) then Head(o).updated else Lookup(m, url)
  {
    var s := Step(m, urls[0], fetched[0], delivered[0]);
    var rest := Cycle(s.updates, urls[1..], fetched[1..], delivered[1..]);
    assert Cycle(m, urls, fetched, delivered) == CycleResult(rest.updates, Emitted(s) + rest.notices);
    NoticesForAppend(Emitted(s), rest.notices, url);
    assert NoticesFor(Emitted(s), url) == [];
    assert Lookup(s.updates, url) == Lookup(m, url);
  }

  /** The decision rule for a URL listed once: it is notified, exactly once
      and with the message built from the first entry, iff its fetch gave
      entries whose first marker differs from what the tracker read before
      the pass (a missing key reading as ""). Whatever the delivery result,
      the tracker then reads that marker. */
  lemma {:induction false} NotifiedIffNew(m: map<string, string>, urls: seq<string>, fetched: seq<FetchOutcome>,
                                          delivered: seq<bool>, i: nat)
    requires |fetched| == |urls| && |delivered| == |urls|
    requires ListedOnceAt(urls, i)
    ensures var r := Cycle(m, urls, fetched, delivered);
            NoticesFor(r.notices, urls[i]) ==
              if IsNew(m, urls[i], fetched[i]) then [Notice(urls[i], Message(Head(fetched[i])), delivered[i])] else []
    ensures Lookup(Cycle(m, urls, fetched, delivered).updates, urls[i]) ==
              if HasHead(fetched[i]) then Head(fetched[i]).updated else Lookup(m, urls[i])
    decreases |urls|
  {
    if i == 0 {
      assert urls[0] !in urls[1..] by {
        forall j | 0 <= j < |urls[1..]| ensures urls[1..][j] != urls[0] {
          assert urls[1..][j] == urls[j + 1];
        }
      }
      NotifiedIffNewFirst(m, urls, fetched, delivered);
    } else {
      var s := Step(m, urls[0], fetched[0], delivered[0]);
      var tail, tailFetched, tailDelivered := urls[1..], fetched[1..], delivered[1..];
      assert tail[i - 1] == urls[i] && tailFetched[i - 1] == fetched[i] && tailDelivered[i - 1] == delivered[i];
      assert ListedOnceAt(tail, i - 1) by {
        forall j | 0 <= j < |tail| && j != i - 1 ensures tail[j] != tail[i - 1] {
          assert tail[j] == urls[j + 1];
        }
      }
      NotifiedIffNew(s.updates, tail, tailFetched, tailDelivered, i - 1);
      NotifiedAfterOtherStep(m, urls, fetched, delivered, urls[i], fetched[i], delivered[i]);
    }
  }

  /** A pass that starts from an empty tracker notifies a URL listed once iff
      its fetch gave entries and the first entry's marker is not empty. */
  lemma FirstPassNotifies(urls: seq<string>, fetched: seq<FetchOutcome>, delivered: seq<bool>, i: nat)
    requires |fetched| == |urls| && |delivered| == |urls|
    requires ListedOnceAt(urls, i)
    ensures NoticesFor(Cycle(map[], urls, fetched, delivered).notices, urls[i]) ==
              if HasHead(fetched[i]) && Head(fetched[i]).updated != "" then
                [Notice(urls[i], Message(Head(fetched[i])), delivered[i])]
              else []
  {
    NotifiedIffNew(map[], urls, fetched, delivered, i);
  }

  /** A pass is the pass over the first `j` positions followed by the pass
      over the rest, started from the map the first part left. */
  lemma {:induction false} CycleSplit(m: map<string, string>, urls: seq<string>, fetched: seq<FetchOutcome>,
                                      delivered: seq<bool>, j: nat)
    requires |fetched| == |urls| && |delivered| == |urls| && j <= |urls|
    ensures var pre := Cycle(m, urls[..j], fetched[..j], delivered[..j]);
            var post := Cycle(pre.updates, urls[j..], fetched[j..], delivered[j..]);
            Cycle(m, urls, fetched, delivered) == CycleResult(post.updates, pre.notices + post.notices)
    decreases j
  {
    if j == 0 {
      assert urls[..0] == [] && fetched[..0] == [] && delivered[..0] == [];
      assert urls[0..] == urls && fetched[0..] == fetched && delivered[0..] == delivered;
      assert Cycle(m, [], [], []) == CycleResult(m, []);
    } else {
      var s := Step(m, urls[0], fetched[0], delivered[0]);
      var tail, tailFetched, tailDelivered := urls[1..], fetched[1..], delivered[1..];
      CycleSplit(s.updates, tail, tailFetched, tailDelivered, j - 1);
      var pre' := Cycle(s.updates, tail[..j - 1], tailFetched[..j - 1], tailDelivered[..j - 1]);
      var post := Cycle(pre'.updates, tail[j - 1..], tailFetched[j - 1..], tailDelivered[j - 1..]);
      assert tail[j - 1..] == urls[j..] && tailFetched[j - 1..] == fetched[j..] && tailDelivered[j - 1..] == delivered[j..];
      assert urls[..j][0] == urls[0] && fetched[..j][0] == fetched[0] && delivered[..j][0] == delivered[0];
      assert urls[..j][1..] == tail[..j - 1] && fetched[..j][1..] == tailFetched[..j - 1]
          && delivered[..j][1..] == tailDelivered[..j - 1];
      var pre := Cycle(m, urls[..j], fetched[..j], delivered[..j]);
      assert pre == CycleResult(pre'.updates, Emitted(s) + pre'.notices);
      ConcatAssoc(Emitted(s), pre'.notices, post.notices);
    }
  }

  /** The decision at any position `j`, also for a URL listed more than once:
      the pass is the pass before `j`, then a notice iff the fetch at `j` gave
      entries whose first marker differs from what the URL reads after the
      earlier positions (its old value, or the first marker of its last
      earlier fetch with entries), then the pass after `j`. */
  lemma DecisionAt(m: map<string, string>, urls: seq<string>, fetched: seq<FetchOutcome>, delivered: seq<bool>, j: nat)
    requires |fetched| == |urls| && |delivered| == |urls| && j < |urls|
    ensures var pre := Cycle(m, urls[..j], fetched[..j], delivered[..j]);
            var s := Step(pre.updates, urls[j], fetched[j], delivered[j]);
            var post := Cycle(s.updates, urls[j + 1..], fetched[j + 1..], delivered[j + 1..]);
            var isNew := HasHead(fetched[j]) &&
                         Head(fetched[j]).updated != LastMarker(Lookup(m, urls[j]), urls[..j], fetched[..j], urls[j]);
            Cycle(m, urls, fetched, delivered) ==
              CycleResult(post.updates,
                          pre.notices + (if isNew then [Notice(urls[j], Message(Head(fetched[j])), delivered[j])] else []) + post.notices)
  {
    var pre := Cycle(m, urls[..j], fetched[..j], delivered[..j]);
    var s := Step(pre.updates, urls[j], fetched[j], delivered[j]);
    var post := Cycle(s.updates, urls[j + 1..], fetched[j + 1..], delivered[j + 1..]);
    CycleSplit(m, urls, fetched, delivered, j);
    CycleAt(pre.updates, urls, fetched, delivered, j);
    CycleLookup(m, urls[..j], fetched[..j], delivered[..j], urls[j]);
    ConcatAssoc(pre.notices, Emitted(s), post.notices);
  }

  /** Delivery results never change what the pass records or which messages
      it attempts: only the delivered flags of the notices differ. */
  lemma {:induction false} DeliveryIrrelevant(m: map<string, string>, urls: seq<string>, fetched: seq<FetchOutcome>,
                                              delivered1: seq<bool>, delivered2: seq<bool>)
    requires |fetched| == |urls| && |delivered1| == |urls| && |delivered2| == |urls|
    ensures var r1, r2 := Cycle(m, urls, fetched, delivered1), Cycle(m, urls, fetched, delivered2);
            r1.updates == r2.updates && |r1.notices| == |r2.notices| &&
            forall k :: 0 <= k < |r1.notices| ==>
              r1.notices[k].feedURL == r2.notices[k].feedURL && r1.notices[k].message == r2.notices[k].message
    decreases |urls|
  {
    if urls != [] {
      var s1 := Step(m, urls[0], fetched[0], delivered1[0]);
      var s2 := Step(m, urls[0], fetched[0], delivered2[0]);
      assert s1.updates == s2.updates;
      var rest1 := Cycle(s1.updates, urls[1..], fetched[1..], delivered1[1..]);
      var rest2 := Cycle(s1.updates, urls[1..], fetched[1..], delivered2[1..]);
      DeliveryIrrelevant(s1.updates, urls[1..], fetched[1..], delivered1[1..], delivered2[1..]);
      var n1, n2 := Emitted(s1) + rest1.notices, Emitted(s2) + rest2.notices;
      assert |Emitted(s1)| == |Emitted(s2)|;
      forall k | 0 <= k < |n1| ensures n1[k].feedURL == n2[k].feedURL && n1[k].message == n2[k].message {
        if k >= |Emitted(s1)| {
          assert n1[k] == rest1.notices[k - |Emitted(s1)|] && n2[k] == rest2.notices[k - |Emitted(s1)|];
        }
      }
    }
  }

  /** A pass over a tracker that already reads, for every position whose
      fetch gave entries, that fetch's first marker sends nothing and
      changes nothing. */
  lemma {:induction false} QuietPass(m: map<string, string>, urls: seq<string>, fetched: seq<FetchOutcome>, delivered: seq<bool>)
    requires |fetched| == |urls| && |delivered| == |urls|
    requires forall i :: 0 <= i < |urls| && HasHead(fetched[i]) ==> Lookup(m, urls[i]) == Head(fetched[i]).updated
    ensures Cycle(m, urls, fetched, delivered) == CycleResult(m, [])
    decreases |urls|
  {
    if urls != [] {
      assert !IsNew(m, urls[0], fetched[0]);
      forall i | 0 <= i < |urls[1..]| && HasHead(fetched[1..][i])
        ensures Lookup(m, urls[1..][i]) == Head(fetched[1..][i]).updated
      {
        assert urls[1..][i] == urls[i + 1] && fetched[1..][i] == fetched[i + 1];
      }
      QuietPass(m, urls[1..], fetched[1..], delivered[1..]);
    }
  }

  /** When every position of `url` with entries has marker `x`, and either
      the start already reads `x` or some such position exists, the pass
      leaves `url` reading `x`. */
  lemma {:induction false} LastMarkerUniform(start: string, urls: seq<string>, fetched: seq<FetchOutcome>, url: string, x: string)
    requires |fetched| == |urls|
    requires forall i :: 0 <= i < |urls| && urls[i] == url && HasHead(fetched[i]) ==> Head(fetched[i]).updated == x
    requires start == x || exists i :: 0 <= i < |urls| && urls[i] == url && HasHead(fetched[i])
    ensures LastMarker(start, urls, fetched, url) == x
    decreases |urls|
  {
    if urls != [] {
      var next := if urls[0] == url && HasHead(fetched[0]) then Head(fetched[0]).updated else start;
      forall i | 0 <= i < |urls[1..]| && urls[1..][i] == url && HasHead(fetched[1..][i])
        ensures Head(fetched[1..][i]).updated == x
      {
        assert urls[1..][i] == urls[i + 1] && fetched[1..][i] == fetched[i + 1];
      }
      if next != x {
        var i :| 0 <= i < |urls| && urls[i] == url && HasHead(fetched[i]);
        assert i != 0;
        assert urls[1..][i - 1] == url && fetched[1..][i - 1] == fetched[i];
      }
      LastMarkerUniform(next, urls[1..], fetched[1..], url, x);
    }
  }

  /** Running the pass again on the same fetch outcomes sends nothing and
      changes nothing, whatever the first pass's deliveries were: a failed
      send is not retried. Needs the outcomes of a URL listed twice to agree. */
  lemma SecondPassQuiet(m: map<string, string>, urls: seq<string>, fetched: seq<FetchOutcome>,
                        delivered1: seq<bool>, delivered2: seq<bool>)
    requires |fetched| == |urls| && |delivered1| == |urls| && |delivered2| == |urls|
    requires Consistent(urls, fetched)
    ensures var m1 := Cycle(m, urls, fetched, delivered1).updates;
            Cycle(m1, urls, fetched, delivered2) == CycleResult(m1, [])
  {
    var m1 := Cycle(m, urls, fetched, delivered1).updates;
    forall i | 0 <= i < |urls| && HasHead(fetched[i])
      ensures Lookup(m1, urls[i]) == Head(fetched[i]).updated
    {
      CycleLookup(m, urls, fetched, delivered1, urls[i]);
      LastMarkerUniform(Lookup(m, urls[i]), urls, fetched, urls[i], Head(fetched[i]).updated);
    }
    QuietPass(m1, urls, fetched, delivered2);
  }

  /** The same for a single URL listed once, without any condition on the
      other URLs: once its new marker was attempted, delivered or not, the
      next pass with the same outcome for it does not notify it again. */
  lemma NoRetryAfterFailedSend(m: map<string, string>, urls: seq<string>, fetched: seq<FetchOutcome>,
                               delivered1: seq<bool>, fetched2: seq<FetchOutcome>, delivered2: seq<bool>, i: nat)
    requires |fetched| == |urls| && |delivered1| == |urls| && |fetched2| == |urls| && |delivered2| == |urls|
    requires ListedOnceAt(urls, i) && IsNew(m, urls[i], fetched[i]) && !delivered1[i]
    requires fetched2[i] == fetched[i]
    ensures var r1 := Cycle(m, urls, fetched, delivered1);
            NoticesFor(r1.notices, urls[i]) == [Notice(urls[i], Message(Head(fetched[i])), false)] &&
            NoticesFor(Cycle(r1.updates, urls, fetched2, delivered2).notices, urls[i]) == []
  {
    var r1 := Cycle(m, urls, fetched, delivered1);
    NotifiedIffNew(m, urls, fetched, delivered1, i);
    NotifiedIffNew(r1.updates, urls, fetched2, delivered2, i);
  }

  /** A fetch error or an empty feed at position `i` changes nothing: the
      pass runs as though that URL were not configured, so later URLs are
      still processed. */
  lemma {:induction false} SkipWithoutEntries(m: map<string, string>, urls: seq<string>, fetched: seq<FetchOutcome>,
                                              delivered: seq<bool>, i: nat)
    requires |fetched| == |urls| && |delivered| == |urls| && i < |urls|
    requires !HasHead(fetched[i])
    ensures Cycle(m, urls, fetched, delivered) == Cycle(m, Without(urls, i), Without(fetched, i), Without(delivered, i))
    decreases |urls|
  {
    if i == 0 {
      assert Without(urls, 0) == urls[1..] && Without(fetched, 0) == fetched[1..] && Without(delivered, 0) == delivered[1..];
    } else {
      var s := Step(m, urls[0], fetched[0], delivered[0]);
      SkipWithoutEntries(s.updates, urls[1..], fetched[1..], delivered[1..], i - 1);
      assert Without(urls, i)[1..] == Without(urls[1..], i - 1);
      assert Without(fetched, i)[1..] == Without(fetched[1..], i - 1);
      assert Without(delivered, i)[1..] == Without(delivered[1..], i - 1);
      assert Without(urls, i)[0] == urls[0] && Without(fetched, i)[0] == fetched[0] && Without(delivered, i)[0] == delivered[0];
    }
  }

  /** Only the first entry of each fetch matters: two sets of outcomes that
      offer the same first entry at every position give the same pass. */
  lemma {:induction false} OnlyFirstEntryMatters(m: map<string, string>, urls: seq<string>, fetched1: seq<FetchOutcome>,
                                                 fetched2: seq<FetchOutcome>, delivered: seq<bool>)
    requires |fetched1| == |urls| && |fetched2| == |urls| && |delivered| == |urls|
    requires forall i :: 0 <= i < |urls| ==> FirstEntry(fetched1[i]) == FirstEntry(fetched2[i])
    ensures Cycle(m, urls, fetched1, delivered) == Cycle(m, urls, fetched2, delivered)
    decreases |urls|
  {
    if urls != [] {
      assert FirstEntry(fetched1[0]) == FirstEntry(fetched2[0]);
      var s := Step(m, urls[0], fetched1[0], delivered[0]);
      assert Step(m, urls[0], fetched2[0], delivered[0]) == s;
      forall i | 0 <= i < |urls[1..]| ensures FirstEntry(fetched1[1..][i]) == FirstEntry(fetched2[1..][i]) {
        assert fetched1[1..][i] == fetched1[i + 1] && fetched2[1..][i] == fetched2[i + 1];
      }
      OnlyFirstEntryMatters(s.updates, urls[1..], fetched1[1..], fetched2[1..], delivered[1..]);
    }
  }

  /** A pass over two positions is the two steps in order. */
  lemma CycleOfTwo(m: map<string, string>, u1: string, u2: string, o1: FetchOutcome, o2: FetchOutcome, d: seq<bool>)
    requires |d| == 2
    ensures var s1 := Step(m, u1, o1, d[0]);
            var s2 := Step(s1.updates, u2, o2, d[1]);
            Cycle(m, [u1, u2], [o1, o2], d) == CycleResult(s2.updates, Emitted(s1) + Emitted(s2))
  {
    var s1 := Step(m, u1, o1, d[0]);
    var s2 := Step(s1.updates, u2, o2, d[1]);
    assert [u1, u2][1..] == [u2] && [o1, o2][1..] == [o2] && d[1..][1..] == [];
    assert Cycle(s2.updates, [], [], []) == CycleResult(s2.updates, []);
    assert Cycle(s1.updates, [u2], [o2], d[1..]) == CycleResult(s2.updates, Emitted(s2));
  }

  /** A URL listed twice compares its second fetch with the marker its first
      fetch just recorded: when the two fetches disagree, every later pass
      with the same outcomes notifies it twice again. An instance of
      `DecisionAt` for the list `[url, url]`. */
  lemma DuplicateURLAlternates(m: map<string, string>, url: string, e1: Entry, e2: Entry, d1: seq<bool>, d2: seq<bool>)
    requires e1.updated != e2.updated && |d1| == 2 && |d2| == 2
    ensures var urls, fetched := [url, url], [Ok([e1]), Ok([e2])];
            var m1 := Cycle(m, urls, fetched, d1).updates;
            Cycle(m1, urls, fetched, d2) ==
              CycleResult(m1, [Notice(url, Message(e1), d2[0]), Notice(url, Message(e2), d2[1])])
  {
    var o1, o2 := Ok([e1]), Ok([e2]);
    var p0 := Step(m, url, o1, d1[0]);
    var p1 := Step(p0.updates, url, o2, d1[1]);
    CycleOfTwo(m, url, url, o1, o2, d1);
    var m1 := p1.updates;
    assert m1 == p0.updates[url := e2.updated];
    var q0 := Step(m1, url, o1, d2[0]);
    var q1 := Step(q0.updates, url, o2, d2[1]);
    CycleOfTwo(m1, url, url, o1, o2, d2);
    assert q1.updates == m1[url := e1.updated][url := e2.updated] == m1;
  }

  /** Two configured feeds, the first offering one entry with a fresh marker
      and the second an empty document: one notice, for the first feed, and
      the tracker records only the first feed's marker. */
  lemma TwoFeedScenario(feed1: string, feed2: string, e: Entry, delivered: seq<bool>)
    requires feed1 != feed2 && e.updated == "2024-01-01T00:00Z" && |delivered| == 2
    ensures Cycle(map[], [feed1, feed2], [Ok([e]), Ok([])], delivered) ==
              CycleResult(map[feed1 := e.updated], [Notice(feed1, Message(e), delivered[0])])
  {
    CycleOfTwo(map[], feed1, feed2, Ok([e]), Ok([]), delivered);
  }
}
