/** `RssChannel.toDevLog()`: a game's devlog feed, parsed by the RSS library into a
    channel, becomes a `DevLog`. Only the items that have a title, a link and a
    publication date are kept, in feed order; a feed with none of them, or without a
    channel link, is a parsing error. The date text is converted by `toTime`. */
module DevLogs {
  import opened Wrappers
  import opened Games

  /** An item as the RSS library gives it: every field may be missing. */
  datatype RssItem = RssItem(title: Option<string>, link: Option<string>, pubDate: Option<string>,
                             description: Option<string>)

  datatype RssChannel = RssChannel(link: Option<string>, items: seq<RssItem>)

  datatype DevLog = DevLog(url: string, items: seq<DevLogItem>)

  predicate Complete(it: RssItem) {
    it.title.Some? && it.link.Some? && it.pubDate.Some?
  }

  /** The `filter` of complete items. */
  function Kept(items: seq<RssItem>): (r: seq<RssItem>)
    ensures |r| <= |items|
    ensures forall i :: 0 <= i < |r| ==> Complete(r[i]) && r[i] in items
    ensures forall it :: it in items && Complete(it) ==> it in r
  {
    if items == [] then []
    else (if Complete(items[0]) then [items[0]] else []) + Kept(items[1..])
  }

  /** Filtering distributes over concatenation: the kept items of two runs of the feed
      come in the runs' order, each run's in its own order. */
  lemma {:induction false} KeptAppend(a: seq<RssItem>, b: seq<RssItem>)
    ensures Kept(a + b) == Kept(a) + Kept(b)
  {
    if a == [] {
      assert a + b == b;
    } else {
      assert (a + b)[0] == a[0];
      assert (a + b)[1..] == a[1..] + b;
      KeptAppend(a[1..], b);
    }
  }

  /** A feed of complete items is kept whole; filtering twice is filtering once. */
  lemma {:induction false} KeptAllComplete(items: seq<RssItem>)
    requires forall i :: 0 <= i < |items| ==> Complete(items[i])
    ensures Kept(items) == items
  {
    if items != [] {
      KeptAllComplete(items[1..]);
    }
  }

  lemma {:induction false} KeptIdempotent(items: seq<RssItem>)
    ensures Kept(Kept(items)) == Kept(items)
  {
    KeptAllComplete(Kept(items));
  }

  /** The `map` to `DevLogItem`: the title, link and description are copied, the date
      converted. */
  function Entry(it: RssItem, toTime: string -> nat): DevLogItem
    requires Complete(it)
  {
    DevLogItem(it.title.value, it.link.value, toTime(it.pubDate.value), it.description)
  }

  function Converted(items: seq<RssItem>, toTime: string -> nat): (r: seq<DevLogItem>)
    requires forall i :: 0 <= i < |items| ==> Complete(items[i])
    ensures |r| == |items| && forall i :: 0 <= i < |items| ==> r[i] == Entry(items[i], toTime)
  {
    seq(|items|, i requires 0 <= i < |items| => Entry(items[i], toTime))
  }

  function ToDevLog(ch: RssChannel, toTime: string -> nat): (r: Result<DevLog, ParseFailure>)
    ensures r.Success? <==> Kept(ch.items) != [] && ch.link.Some?
    ensures r.Failure? ==> r.error == ParsingError("dev log")
    ensures r.Success? ==> r.value.url == ch.link.value && r.value.items == Converted(Kept(ch.items), toTime)
  {
    var items := Converted(Kept(ch.items), toTime);
    if items != [] then
      match ch.link
      case Some(url) => Success(DevLog(url, items))
      case None => Failure(ParsingError("dev log"))
    else Failure(ParsingError("dev log"))
  }

  /** Every devlog entry comes from a complete item of the feed, and every complete item
      gives one entry; the entries are never empty. */
  lemma {:induction false} ToDevLogItems(ch: RssChannel, toTime: string -> nat)
    requires ToDevLog(ch, toTime).Success?
    ensures var d := ToDevLog(ch, toTime).value;
            && d.items != []
            && (forall e :: e in d.items ==>
                  exists it :: it in ch.items && Complete(it) && e.title == it.title.value
                               && e.link == it.link.value && e.description == it.description)
            && (forall it :: it in ch.items && Complete(it) ==>
                  exists e :: e in d.items && e.title == it.title.value && e.link == it.link.value)
  {
    EntriesFromComplete(ch, toTime);
    CompleteGiveEntries(ch, toTime);
  }

  lemma {:induction false} EntriesFromComplete(ch: RssChannel, toTime: string -> nat)
    requires ToDevLog(ch, toTime).Success?
    ensures var d := ToDevLog(ch, toTime).value;
            forall e :: e in d.items ==>
              exists it :: it in ch.items && Complete(it) && e.title == it.title.value
                           && e.link == it.link.value && e.description == it.description
  {
    var d := ToDevLog(ch, toTime).value;
    var k := Kept(ch.items);
    forall e | e in d.items
      ensures exists it :: it in ch.items && Complete(it) && e.title == it.title.value
                           && e.link == it.link.value && e.description == it.description
    {
      var i :| 0 <= i < |d.items| && d.items[i] == e;
      assert e == Entry(k[i], toTime);
      assert k[i] in ch.items && Complete(k[i]);
    }
  }

  lemma {:induction false} CompleteGiveEntries(ch: RssChannel, toTime: string -> nat)
    requires ToDevLog(ch, toTime).Success?
    ensures var d := ToDevLog(ch, toTime).value;
            forall it :: it in ch.items && Complete(it) ==>
              exists e :: e in d.items && e.title == it.title.value && e.link == it.link.value
  {
    var d := ToDevLog(ch, toTime).value;
    var k := Kept(ch.items);
    forall it | it in ch.items && Complete(it)
      ensures exists e :: e in d.items && e.title == it.title.value && e.link == it.link.value
    {
      var i :| 0 <= i < |k| && k[i] == it;
      assert d.items[i] == Entry(it, toTime);
      assert d.items[i] in d.items;
    }
  }

  /** Incomplete items never matter: appending them to the feed changes nothing. */
  lemma {:induction false} ToDevLogIgnoresIncomplete(ch: RssChannel, extra: seq<RssItem>, toTime: string -> nat)
    requires forall i :: 0 <= i < |extra| ==> !Complete(extra[i])
    ensures ToDevLog(ch.(items := ch.items + extra), toTime) == ToDevLog(ch, toTime)
  {
    KeptAppend(ch.items, extra);
    KeptNone(extra);
    assert Kept(ch.items) + [] == Kept(ch.items);
  }

  lemma {:induction false} KeptNone(items: seq<RssItem>)
    requires forall i :: 0 <= i < |items| ==> !Complete(items[i])
    ensures Kept(items) == []
  {
    if items != [] {
      KeptNone(items[1..]);
    }
  }
}
