/**
 * `formatEventsMessage`: the reply text for a list of events. A fixed header,
 * then either a fixed notice (no events) or "Events:" and one block per event,
 * in input order, each block being four labelled lines and a divider.
 *
 * `ParseMessage` reads such a reply back into the four fields shown per event;
 * the lemmas at the end show it undoes the formatter whenever the fields hold
 * no line break, and accepts nothing the formatter cannot produce.
 */
module Formatter {
  import opened Wrappers
  import opened Text
  import opened Events

  const Header: string := "#BOT DEVS OF LATIN"
  /** The notice for no events (one text, written in two pieces). */
  const Unavailable: string := "Ops... " + "Looks Like the service is unavailable at the moment :("
  const EventsLabel: string := "Events:"
  /** Forty dashes and three line breaks. */
  const Divider: string := "----------------------------------------\n\n\n"
  /** What follows the URL line of a block, up to and including the divider. */
  const BlockEnd: string := " \n\n\n" + Divider

  /** The four values an event contributes to the reply. */
  datatype Listing = Listing(name: string, city: string, date: string, url: string)

  /** The arguments the formatter passes for an event: name, city, Portuguese start date, URL. */
  function Shown(e: Event): Listing
  {
    Listing(e.name, e.location.city, e.startDateFormats.pt, e.url)
  }

  /**
   * The `fmt.Sprintf` line of the loop, applied to an event's four values:
   * format "- %s\n  Local: %s\n  Data: %s\n  URL: %s\n \n\n\n", written here
   * with each line break as a piece of its own.
   */
  function ListingText(l: Listing): string
  {
    "- " + l.name + "\n" + "  Local: " + l.city + "\n" + "  Data: " + l.date + "\n" + "  URL: " + l.url + "\n" + " \n\n\n"
  }

  /** What one loop iteration appends: the event text, then the divider. */
  function Block(e: Event): string
  {
    ListingText(Shown(e)) + Divider
  }

  /** The blocks of `events`, in order. */
  function Blocks(events: seq<Event>): string
  {
    if events == [] then [] else Block(events[0]) + Blocks(events[1..])
  }

  /** The reply for `events`; the source's nil and empty slices are both []. */
  function FormatMessage(events: seq<Event>): string
  {
    Header + if events == [] then Unavailable else EventsLabel + Blocks(events)
  }

  /** Blocks of a concatenation are the concatenated blocks. */
  lemma {:induction false} BlocksAppend(a: seq<Event>, b: seq<Event>)
    ensures Blocks(a + b) == Blocks(a) + Blocks(b)
  {
    if a == [] {
      assert a + b == b;
    } else {
      assert (a + b)[1..] == a[1..] + b;
      BlocksAppend(a[1..], b);
    }
  }

  /** One more event of the list: its text and the divider join the blocks so far. */
  lemma {:induction false} BlocksStep(events: seq<Event>, i: nat)
    requires i < |events|
    ensures Blocks(events[..i + 1]) == Blocks(events[..i]) + ListingText(Shown(events[i])) + Divider
  {
    assert events[..i + 1] == events[..i] + [events[i]];
    BlocksAppend(events[..i], [events[i]]);
    assert Blocks([events[i]]) == Block(events[i]) + Blocks([]);
    AppendAssoc(Blocks(events[..i]), ListingText(Shown(events[i])), Divider);
  }

  /**
   * `formatEventsMessage`: starts from the header, appends the notice for no
   * events, and otherwise appends "Events:" and then, event by event, the
   * formatted text and the divider.
   */
  method FormatEventsMessage(events: seq<Event>) returns (message: string)
    ensures message == FormatMessage(events)
  {
    message := Header;
    if |events| == 0 {
      message := message + Unavailable;
    } else {
      message := message + EventsLabel;
      for i := 0 to |events|
        invariant message == Header + EventsLabel + Blocks(events[..i])
      {
        var event := events[i];
        ghost var done := Blocks(events[..i]);
        message := message + ListingText(Shown(event));
        message := message + Divider;
        BlocksStep(events, i);
        AppendAssoc(Header + EventsLabel, done, ListingText(Shown(event)));
        AppendAssoc(Header + EventsLabel, done + ListingText(Shown(event)), Divider);
      }
      assert events[..|events|] == events;
    }
  }

  /**
   * The reply always opens with the header, and it is the header followed by
   * the unavailability notice exactly when there are no events.
   */
  lemma {:induction false} MessageCases(events: seq<Event>)
    ensures Header <= FormatMessage(events)
    ensures FormatMessage(events) == Header + Unavailable <==> events == []
  {
    var m := FormatMessage(events);
    if events != [] {
      assert m[|Header|] == EventsLabel[0];
      assert (Header + Unavailable)[|Header|] == Unavailable[0];
    }
  }

  /**
   * Input order: the block of the i-th event sits between the blocks of the
   * events before it and those after it.
   */
  lemma {:induction false} BlockAt(events: seq<Event>, i: nat)
    requires i < |events|
    ensures Blocks(events) == Blocks(events[..i]) + Block(events[i]) + Blocks(events[i + 1..])
  {
    assert events == events[..i] + ([events[i]] + events[i + 1..]);
    BlocksAppend(events[..i], [events[i]] + events[i + 1..]);
    assert ([events[i]] + events[i + 1..])[1..] == events[i + 1..];
  }

  /** Characters of the four shown values of `events`, summed. */
  function ShownLength(events: seq<Event>): nat
  {
    if events == [] then 0
    else
      var l := Shown(events[0]);
      |l.name| + |l.city| + |l.date| + |l.url| + ShownLength(events[1..])
  }

  /** Every block adds 77 fixed characters to its event's four values. */
  lemma {:induction false} BlocksLength(events: seq<Event>)
    ensures |Blocks(events)| == ShownLength(events) + 77 * |events|
  {
    if events != [] {
      BlocksLength(events[1..]);
    }
  }

  /**
   * The reply's length is linear in the shown values: 18 header characters,
   * then 61 for the notice, or 7 for "Events:" and 77 per event plus its values.
   */
  lemma {:induction false} MessageLength(events: seq<Event>)
    ensures |FormatMessage(events)| ==
      18 + if events == [] then 61 else 7 + ShownLength(events) + 77 * |events|
  {
    BlocksLength(events);
  }

  /** A value can be read back from its line when it has no line break. */
  predicate OneLine(l: Listing)
  {
    '\n' !in l.name && '\n' !in l.city && '\n' !in l.date && '\n' !in l.url
  }

  /** Reads one block: the four labelled lines, then the fixed end of the block. */
  function ParseBlock(s: string): (r: Option<(Listing, string)>)
    ensures r.Some? ==> OneLine(r.value.0) && s == ListingText(r.value.0) + Divider + r.value.1
  {
    match Expect("- ", s)
    case None => None
    case Some(s1) =>
      match ReadUntil(s1, '\n')
      case None => None
      case Some(name) =>
        match Expect("  Local: ", name.1)
        case None => None
        case Some(s2) =>
          match ReadUntil(s2, '\n')
          case None => None
          case Some(city) =>
            match Expect("  Data: ", city.1)
            case None => None
            case Some(s3) =>
              match ReadUntil(s3, '\n')
              case None => None
              case Some(date) =>
                match Expect("  URL: ", date.1)
                case None => None
                case Some(s4) =>
                  match ReadUntil(s4, '\n')
                  case None => None
                  case Some(url) =>
                    match Expect(BlockEnd, url.1)
                    case None => None
                    case Some(rest) =>
                      var l := Listing(name.0, city.0, date.0, url.0);
                      ListingTextParts(l, rest);
                      Some((l, rest))
  }

  /** The block text, line by line, as `ParseBlock` consumes it. */
  lemma {:induction false} ListingTextParts(l: Listing, rest: string)
    ensures ListingText(l) + Divider + rest ==
      "- " + (l.name + "\n" + ("  Local: " + (l.city + "\n" + ("  Data: " + (l.date + "\n" +
        ("  URL: " + (l.url + "\n" + (BlockEnd + rest))))))))
  {
    Regroup("- ", l.name, "\n", "  Local: ", l.city, "\n", "  Data: ", l.date, "\n", "  URL: ", l.url, "\n", " \n\n\n", Divider, rest);
  }

  /** The regrouping `ListingTextParts` needs, for any thirteen pieces, a divider and a rest. */
  lemma Regroup(p1: string, p2: string, p3: string, p4: string, p5: string, p6: string, p7: string, p8: string,
                p9: string, p10: string, p11: string, p12: string, p13: string, d: string, rest: string)
    ensures p1 + p2 + p3 + p4 + p5 + p6 + p7 + p8 + p9 + p10 + p11 + p12 + p13 + d + rest ==
      p1 + (p2 + p3 + (p4 + (p5 + p6 + (p7 + (p8 + p9 + (p10 + (p11 + p12 + (p13 + d + rest))))))))
  {
  }

  /** Reads blocks until the text runs out. */
  function ParseBlocks(s: string): (r: Option<seq<Listing>>)
    decreases |s|
  {
    if s == [] then Some([])
    else
      match ParseBlock(s)
      case None => None
      case Some(p) =>
        match ParseBlocks(p.1)
        case None => None
        case Some(ls) => Some([p.0] + ls)
  }

  /** Reads a reply: the header, then the notice (no events) or "Events:" and at least one block. */
  function ParseMessage(msg: string): (r: Option<seq<Listing>>)
  {
    match Expect(Header, msg)
    case None => None
    case Some(rest) =>
      if rest == Unavailable then Some([])
      else
        match Expect(EventsLabel, rest)
        case None => None
        case Some(blocks) => if blocks == [] then None else ParseBlocks(blocks)
  }

  /** The shown values of `events`, in order. */
  function Listings(events: seq<Event>): (r: seq<Listing>)
    ensures |r| == |events|
  {
    seq(|events|, i requires 0 <= i < |events| => Shown(events[i]))
  }

  lemma {:induction false} ListingsCons(events: seq<Event>)
    requires events != []
    ensures Listings(events) == [Shown(events[0])] + Listings(events[1..])
  {
  }

  lemma {:induction false} ParseBlockOf(e: Event, rest: string)
    requires OneLine(Shown(e))
    ensures ParseBlock(Block(e) + rest) == Some((Shown(e), rest))
  {
    var l := Shown(e);
    ListingTextParts(l, rest);
    ReadUntilField(l.name, '\n', "  Local: " + (l.city + "\n" + ("  Data: " + (l.date + "\n" +
      ("  URL: " + (l.url + "\n" + (BlockEnd + rest)))))));
    ReadUntilField(l.city, '\n', "  Data: " + (l.date + "\n" + ("  URL: " + (l.url + "\n" + (BlockEnd + rest)))));
    ReadUntilField(l.date, '\n', "  URL: " + (l.url + "\n" + (BlockEnd + rest)));
    ReadUntilField(l.url, '\n', BlockEnd + rest);
  }

  lemma {:induction false} ParseBlocksOf(events: seq<Event>)
    requires forall i :: 0 <= i < |events| ==> OneLine(Shown(events[i]))
    ensures ParseBlocks(Blocks(events)) == Some(Listings(events))
  {
    if events != [] {
      var rest := Blocks(events[1..]);
      assert Blocks(events) == Block(events[0]) + rest;
      BlocksNotEmpty(events);
      ParseBlockOf(events[0], rest);
      assert ParseBlock(Blocks(events)) == Some((Shown(events[0]), rest));
      ParseBlocksOf(events[1..]);
      ListingsCons(events);
    }
  }

  /** Some text precedes the blocks of a non-empty list. */
  lemma {:induction false} BlocksNotEmpty(events: seq<Event>)
    requires events != []
    ensures Blocks(events) != []
  {
    assert |Block(events[0])| >= |Divider| > 0;
  }

  /**
   * Round trip: when no shown value holds a line break, reading the reply gives
   * back each event's name, city, Portuguese start date and URL, in input order.
   */
  lemma {:induction false} ParseFormatted(events: seq<Event>)
    requires forall i :: 0 <= i < |events| ==> OneLine(Shown(events[i]))
    ensures ParseMessage(FormatMessage(events)) == Some(Listings(events))
  {
    var msg := FormatMessage(events);
    if events == [] {
      assert Expect(Header, msg) == Some(Unavailable);
    } else {
      var blocks := Blocks(events);
      var rest := EventsLabel + blocks;
      assert msg == Header + rest;
      assert Expect(Header, msg) == Some(rest);
      assert rest != Unavailable by {
        assert rest[0] == EventsLabel[0];
      }
      assert Expect(EventsLabel, rest) == Some(blocks);
      BlocksNotEmpty(events);
      ParseBlocksOf(events);
    }
  }

  /** An event showing exactly `l`, its other fields left empty as the lenient decoder leaves them. */
  function EventOf(l: Listing): (e: Event)
    ensures Shown(e) == l
  {
    Event(l.name, [], Location([], [], [], l.city, [], [], [], [], []),
      StartDateFormats(l.date, [], []), EndDateFormats([], [], []), l.url)
  }

  function EventsOf(ls: seq<Listing>): (r: seq<Event>)
    ensures |r| == |ls|
  {
    seq(|ls|, i requires 0 <= i < |ls| => EventOf(ls[i]))
  }

  lemma {:induction false} BlocksOfEventsCons(l: Listing, ls: seq<Listing>)
    ensures Blocks(EventsOf([l] + ls)) == ListingText(l) + Divider + Blocks(EventsOf(ls))
  {
    var es := EventsOf([l] + ls);
    assert es[0] == EventOf(l) && es[1..] == EventsOf(ls);
  }

  lemma {:induction false} ParseBlocksSound(s: string)
    ensures ParseBlocks(s).Some? ==> Blocks(EventsOf(ParseBlocks(s).value)) == s
    decreases |s|
  {
    if s != [] && ParseBlocks(s).Some? {
      var p := ParseBlock(s).value;
      var tail := ParseBlocks(p.1).value;
      ParseBlocksSound(p.1);
      assert ParseBlocks(s).value == [p.0] + tail;
      BlocksOfEventsCons(p.0, tail);
    }
  }

  /**
   * Soundness: every reply `ParseMessage` accepts is exactly what the formatter
   * writes for events showing the values it read.
   */
  lemma {:induction false} ParsedIsFormatted(msg: string)
    ensures ParseMessage(msg).Some? ==> FormatMessage(EventsOf(ParseMessage(msg).value)) == msg
  {
    if ParseMessage(msg).None? {
      return;
    }
    var rest := msg[|Header|..];
    if rest != Unavailable {
      var blocks := rest[|EventsLabel|..];
      ParseBlocksSound(blocks);
      assert ParseBlocks(blocks).value != [] by {
        assert ParseBlock(blocks).Some?;
      }
    }
  }
}
