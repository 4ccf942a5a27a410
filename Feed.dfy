/** The feed entries the notifier reads, the abstract outcome of fetching one
    feed, and the chat message built from a feed's first entry. */
module Feed {

  /** The `link` element of an entry; only its `href` attribute is read. */
  datatype Link = Link(href: string)

  /** One `entry` element of a fetched feed document. */
  datatype Entry = Entry(title: string, updated: string, link: Link)

  /** What fetching one feed URL yields: a transport or parse error, or the
      entries of the document in document order (possibly none). */
  datatype FetchOutcome = FetchErr | Ok(entries: seq<Entry>)

  /** The fetch succeeded and the feed has at least one entry. */
  predicate HasHead(o: FetchOutcome)
  {
    o.Ok? && |o.entries| > 0
  }

  /** The first entry of a successful, non-empty fetch: the only one consulted. */
  function Head(o: FetchOutcome): Entry
    requires HasHead(o)
  {
    o.entries[0]
  }

  /** The fixed label that starts every notification. */
  const Label: string := "IT-News: ["

  /** The notification text: the label, then a Markdown link whose text is
      the entry's title and whose target is the entry's link. */
  function Message(e: Entry): (m: string)
    ensures |m| == |Label| + |e.title| + |e.link.href| + 3
  {
    Label + e.title + "](" + e.link.href + ")"
  }

  /** The message is the label, the title, `](`, the link and `)`, each in
      its place. */
  lemma MessageLayout(e: Entry)
    ensures var m := Message(e);
            |m| == |Label| + |e.title| + 2 + |e.link.href| + 1 &&
            m[..|Label|] == Label &&
            m[|Label|..|Label| + |e.title|] == e.title &&
            m[|Label| + |e.title|..|Label| + |e.title| + 2] == "](" &&
            m[|Label| + |e.title| + 2..|m| - 1] == e.link.href &&
            m[|m| - 1] == ')'
  {
  }

  /** The message does not depend on the entry's update marker. */
  lemma MessageIgnoresMarker(e: Entry, marker: string)
    ensures Message(e.(updated := marker)) == Message(e)
  {
  }

  /** The first `]` of a message whose title holds no `]` closes the title. */
  lemma FirstCloseBracket(e: Entry, k: nat)
    requires ']' !in e.title
    requires |Label| <= k < |Message(e)| && Message(e)[k] == ']'
    ensures |Label| + |e.title| <= k
  {
    MessageLayout(e);
  }

  /** A title without `]` and the link can be read back from the message:
      two such entries yield the same message only if their titles and
      links agree. */
  lemma {:induction false} MessageDeterminesTitleAndLink(e1: Entry, e2: Entry)
    requires ']' !in e1.title && ']' !in e2.title
    requires Message(e1) == Message(e2)
    ensures e1.title == e2.title && e1.link == e2.link
  {
    MessageLayout(e1);
    MessageLayout(e2);
    var m := Message(e1);
    var n1, n2 := |Label| + |e1.title|, |Label| + |e2.title|;
    assert m[n1] == "]("[0] == ']';
    assert m[n2] == Message(e2)[n2] == ']';
    FirstCloseBracket(e1, n2);
    FirstCloseBracket(e2, n1);
    assert n1 == n2;
    assert e1.link.href == m[n1 + 2..|m| - 1] == e2.link.href;
  }

  /** An example: title "Big Release", link "https://x.io/a". */
  lemma MessageExample()
    ensures Message(Entry("Big Release", "", Link("https://x.io/a")))
            == "IT-News: [Big Release](https://x.io/a)"
  {
  }
}
