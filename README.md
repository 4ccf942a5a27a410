# matrix-rss: the poll-diff-notify pass, modelled in Dafny

matrix-rss polls a configured list of Atom/RSS feed URLs, and whenever the
first entry of a feed carries a different `updated` marker than the one last
seen for that URL, it posts `IT-News: [title](link)` to a Matrix room. This
project models the part of `main.go` that makes decisions:

- `Feed` (Feed.dfy): the feed entry (`title`, `updated`, `link@href`), the
  outcome of fetching one URL (`FetchErr` or `Ok(entries)`), and the message
  formatter.
- `Configuration` (Configuration.dfy): the configuration record, the
  placeholder configuration, and `IsDefaultConfig`, the start-up test that
  refuses to run with the placeholder values.
- `Poll` (Poll.dfy): one pass of the outer loop of `main`. The tracker
  `lastUpdates` is the field of class `Poller`; `Poller.RunCycle` is the
  nested loop, with its `continue` on a fetch error and the in-place map write,
  proved equal to the specification function `Cycle`, which is built from
  `Step`, the work done for one URL. Go's read of a missing map key yields
  `""`; `Lookup` models that.
- `PollProperties` (PollProperties.dfy): what a pass promises, as lemmas about
  `Cycle`.

The fetch and the send are outside the model: a pass takes, for each position
of the URL list, the fetch outcome and whether the send would succeed.

Two behaviours of the code may differ from what one would expect:

- One might expect the marker to be recorded only after a successful send,
  so that the next pass retries. The code writes the new marker into
  `lastUpdates` before it sends (main.go:166, then main.go:170), so a failed
  send is recorded like a successful one and is never retried.
  `DeliveryIrrelevant`, `SecondPassQuiet` and `NoRetryAfterFailedSend` state
  this.
- One might expect the first pass after a start to notify every feed that
  has entries. A missing key reads as `""`, so a feed whose first entry has an
  empty `updated` is not notified (`FirstPassNotifies`, `Poll.IsNew`).

## Model

| member | source | states |
|---|---|---|
| Feed.Message | main.go:169 | the formatter; its contract gives the length (label, title, link and the three characters `](` and `)`), and MessageLayout states its exact layout |
| Feed.MessageLayout | main.go:169 | the message is `IT-News: [`, the title, `](`, the link and `)`, each at its position, and nothing else |
| Feed.MessageDeterminesTitleAndLink | main.go:169 | for titles without `]`, equal messages mean equal titles and equal links: the message identifies the entry's title and link |
| Feed.MessageIgnoresMarker | main.go:169 | the message does not depend on the entry's `updated` marker |
| Feed.MessageExample | main.go:169 | title "Big Release" and link "https://x.io/a" give exactly `IT-News: [Big Release](https://x.io/a)` |
| Configuration.DefaultConfig | main.go:142-148 | the placeholder values: two distinct feed URLs, a positive check interval (30) |
| Configuration.SameURLs | main.go:121 | element-by-element comparison of the URL lists holds iff the lists have the same length and agree at every index |
| Configuration.IsDefaultConfig | main.go:120-126 | true iff the feed URL lists are equal in order and the server, room ID, token and check interval are all equal |
| Configuration.FeedOrderMatters | main.go:142-148 | the two placeholder feeds listed in the other order are not the placeholder configuration |
| Poll.Lookup | main.go:165 | Go's map read: a present key gives its value, and a non-empty result means the key is present with that value (a missing key reads as "") |
| Poll.IsNew | main.go:165 | the decision condition: it needs a successful fetch with entries, and for a URL never seen it needs a non-empty first marker |
| Poll.Step | main.go:158-176 | one URL: a notice iff the fetch succeeded with entries and the first entry's marker differs from the stored one (missing key read as ""); then the marker is written and the notice carries the formatted first entry and the delivery result; otherwise the map is unchanged; afterwards the URL reads the first entry's marker whenever there is one |
| Poll.Cycle | main.go:157-177 | a pass sends no more notices than there are configured positions |
| Poll.Poller.constructor | main.go:155 | the tracker starts empty |
| Poll.Poller.RunCycle | main.go:157-177 | the loop leaves in `lastUpdates` the map of `Cycle` applied to the old map and returns exactly `Cycle`'s notices, in order |
| PollProperties.CycleLookup | main.go:158-166 | after a pass, every URL reads the first-entry marker of its last successful non-empty fetch, or what it read before when there is none; delivery results play no part |
| PollProperties.CycleKeys | main.go:166 | a pass never removes a key and adds only keys of configured URLs |
| PollProperties.OnlyListedKeysWritten | main.go:158-166 | a key not in the URL list keeps its presence and its value, and no notice is about it |
| PollProperties.NotifiedIffNew | main.go:159-169 | a URL listed once is notified, exactly once and with its formatted first entry, iff its fetch succeeded with entries whose first marker differs from what the tracker read before; afterwards it reads that marker whether or not the send succeeded |
| PollProperties.FirstPassNotifies | main.go:155-166 | from the empty tracker, a URL listed once is notified iff it has entries and its first entry's marker is not "" |
| PollProperties.DeliveryIrrelevant | main.go:166-175 | the recorded map and the attempted messages (feed and text, in order) do not depend on the delivery results |
| PollProperties.QuietPass | main.go:165 | if the tracker already reads every fetched first-entry marker, the pass sends nothing and changes nothing |
| PollProperties.DistinctConsistent | main.go:158 | a URL list without repetitions meets the agreement condition that SecondPassQuiet needs |
| PollProperties.SecondPassQuiet | main.go:157-177 | a second pass with the same fetch outcomes sends nothing and changes nothing, whatever the first pass's deliveries, provided a URL listed twice gets agreeing markers |
| PollProperties.NoRetryAfterFailedSend | main.go:166-175 | a URL listed once whose new marker failed to be delivered is not notified again by a pass with the same fetch outcome for it |
| PollProperties.SkipWithoutEntries | main.go:159-165 | a fetch error or an empty feed at one position changes nothing: the pass equals the pass without that position, so later URLs are still processed |
| PollProperties.OnlyFirstEntryMatters | main.go:165-169 | outcomes that offer the same first entry at every position give the same pass: later entries never matter |
| PollProperties.CycleSplit | main.go:157-177 | a pass is the pass over the first j positions followed by the pass over the remaining positions, started from the map the first part left; notices are the two parts' notices in order |
| PollProperties.DecisionAt | main.go:158-169 | at any position j, also of a URL listed more than once, the pass is the pass before j, then a notice with the formatted first entry iff the fetch at j gave entries whose first marker differs from what that URL reads after the earlier positions (its old value, or the first marker of its last earlier fetch with entries), then the pass after j |
| PollProperties.DuplicateURLAlternates | main.go:158-166 | an instance of DecisionAt for the list `[url, url]` with one-entry feeds: the second position compares with the marker just written by the first, so if the two markers differ every later pass with the same outcomes notifies it twice |
| PollProperties.TwoFeedScenario | main.go:158-169 | feed1 with one fresh entry and feed2 empty: one notice, for feed1, and the tracker holds only feed1's marker |

## Left out

- `loadConfig` and `createDefaultConfig` (main.go:38-65): reading, creating and writing the JSON configuration file is file-system I/O and JSON encoding; `DefaultConfig` only gives the placeholder values they share with main.go:142-148.
- `fetchFeed` (main.go:67-86): the HTTP GET and the XML decoding of `entry`, `updated`, `title` and `link@href` are replaced by the `FetchOutcome` input; any transport or decoding error is `FetchErr`, and a document without entries is `Ok([])`.
- `sendMatrixMessage` (main.go:88-118): the Markdown-to-HTML conversion, the JSON payload and the HTTP POST are replaced by a per-position delivery flag; the flag is true exactly when the server answered status 200 (main.go:114-116).
- `time.Sleep` and the endless outer loop (main.go:157, 179): the model is one pass; properties across passes are lemmas about two consecutive passes.
- The start-up path of `main` (main.go:128-153): log lines, `os.Exit`, and the call that refuses a placeholder configuration; only the comparison itself is modelled.
- Log output (main.go:161, 172, 174): a notice's `delivered` flag records which of the two send log lines is printed; the fetch-error line is not modelled.
- Configuration.IsDefaultConfig: `reflect.DeepEqual` distinguishes a nil URL list from an empty one, the model does not; this matters only when both lists are empty, never against the two-URL placeholder.
- Go strings are byte strings and the model's are character sequences; `fmt.Sprintf` with `%s` copies them unchanged, so the message layout is the same.
- The delivery results are indexed by position in the URL list; positions where nothing is sent ignore theirs.
