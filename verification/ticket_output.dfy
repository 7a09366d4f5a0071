/**
 The Telegram view written next to the tickets (outputs/generateTickets.js):
 a hashtag from the leg markets, a colour by average confidence, and an
 "HT-only" fallback marker for tickets with fewer than three legs.
 */
module TicketOutput {
  import opened JsValues
  import opened Legs
  import opened Tickets

  /** Averages strictly above this are shown green. */
  const GREEN_ABOVE: int := 75

  datatype Emoji = Green | Yellow

  datatype TelegramTicket = TelegramTicket(ticket: Ticket, tag: string, emoji: Emoji, fallback: Option<string>)

  /** `parts.join(sep)` */
  function Join(parts: seq<string>, sep: char): (r: string)
    ensures |parts| == 1 ==> r == parts[0]
  {
    if |parts| == 0 then ""
    else if |parts| == 1 then parts[0]
    else parts[0] + [sep] + Join(parts[1..], sep)
  }

  /** `s.split(sep)` for a one-character separator: always at least one piece. */
  function Split(s: string, sep: char): (r: seq<string>)
    ensures |r| >= 1
    ensures forall m :: 0 <= m < |r| ==> sep !in r[m]
  {
    if |s| == 0 then [""]
    else
      var rest := Split(s[1..], sep);
      if s[0] == sep then [""] + rest
      else
        assert forall m :: 1 <= m < |rest| ==> rest[1..][m - 1] == rest[m];
        [[s[0]] + rest[0]] + rest[1..]
  }

  /** Splitting a separator-free piece followed by a separator peels that piece off. */
  lemma {:induction false} SplitPiece(piece: string, sep: char, tail: string)
    requires sep !in piece
    ensures Split(piece + [sep] + tail, sep) == [piece] + Split(tail, sep)
  {
    if |piece| == 0 {
      assert piece + [sep] + tail == [sep] + tail;
      assert ([sep] + tail)[1..] == tail;
    } else {
      var s := piece + [sep] + tail;
      assert s[1..] == piece[1..] + [sep] + tail;
      SplitPiece(piece[1..], sep, tail);
      assert [piece[0]] + piece[1..] == piece;
    }
  }

  lemma {:induction false} SplitWhole(piece: string, sep: char)
    requires sep !in piece
    ensures Split(piece, sep) == [piece]
  {
    if |piece| > 0 {
      SplitWhole(piece[1..], sep);
      assert [piece[0]] + piece[1..] == piece;
    }
  }

  /** Joining then splitting gives the parts back when no part contains the separator. */
  lemma {:induction false} SplitJoin(parts: seq<string>, sep: char)
    requires |parts| >= 1
    requires forall m :: 0 <= m < |parts| ==> sep !in parts[m]
    ensures Split(Join(parts, sep), sep) == parts
  {
    if |parts| == 1 {
      SplitWhole(parts[0], sep);
    } else {
      SplitJoin(parts[1..], sep);
      SplitPiece(parts[0], sep, Join(parts[1..], sep));
      assert parts == [parts[0]] + parts[1..];
    }
  }

  /** Splitting then joining gives the string back, for every string. */
  lemma {:induction false} JoinSplit(s: string, sep: char)
    ensures Join(Split(s, sep), sep) == s
  {
    if |s| > 0 {
      var rest := Split(s[1..], sep);
      JoinSplit(s[1..], sep);
      if s[0] == sep {
        assert ([""] + rest)[1..] == rest;
        assert s == [sep] + s[1..];
      } else {
        var pieces := [[s[0]] + rest[0]] + rest[1..];
        assert pieces[1..] == rest[1..];
        if |rest| == 1 {
          assert s == [s[0]] + rest[0];
        } else {
          assert Join(rest, sep) == rest[0] + [sep] + Join(rest[1..], sep);
          assert s == [s[0]] + (rest[0] + [sep] + Join(rest[1..], sep));
        }
      }
    }
  }

  /** Market codes such as DRAW_SFTY contain the separator, so a tag does not determine its markets. */
  lemma TagAmbiguous()
    ensures Join(["DRAW_SFTY"], '_') == Join(["DRAW", "SFTY"], '_')
  {
    assert ["DRAW", "SFTY"][1..] == ["SFTY"];
  }

  function Markets(legs: seq<Leg>): (r: seq<string>)
    ensures |r| == |legs|
    ensures forall m :: 0 <= m < |r| ==> r[m] == legs[m].market
  {
    seq(|legs|, m requires 0 <= m < |legs| => legs[m].market)
  }

  /** `#` followed by the leg markets joined with `_`. */
  function Tag(t: Ticket): (r: string)
    ensures |r| >= 1 && r[0] == '#'
  {
    "#" + Join(Markets(t.legs), '_')
  }

  /** When no market contains `_`, the markets can be read back from the tag. */
  lemma TagRecoversMarkets(t: Ticket)
    requires |t.legs| >= 1
    requires forall m :: 0 <= m < |t.legs| ==> '_' !in t.legs[m].market
    ensures Split(Tag(t)[1..], '_') == Markets(t.legs)
  {
    assert Tag(t)[1..] == Join(Markets(t.legs), '_');
    SplitJoin(Markets(t.legs), '_');
  }

  /** Green only for a numeric average above 75; NaN compares false and is yellow. */
  function EmojiFor(t: Ticket): (r: Emoji)
    ensures r == Green <==> t.confidenceAvg.Some? && t.confidenceAvg.value > GREEN_ABOVE
  {
    if t.confidenceAvg.Some? && t.confidenceAvg.value > GREEN_ABOVE then Green else Yellow
  }

  function FallbackFor(t: Ticket): (r: Option<string>)
    ensures r.Some? <==> |t.legs| < 3
    ensures r.Some? ==> r.value == "HT-only"
  {
    if |t.legs| < 3 then Some("HT-only") else None
  }

  /** `tickets.map(...)`: one view per ticket, same order, the ticket itself untouched. */
  function Telegram(tickets: seq<Ticket>): (r: seq<TelegramTicket>)
    ensures |r| == |tickets|
    ensures forall m :: 0 <= m < |r| ==> r[m].ticket == tickets[m]
    ensures forall m :: 0 <= m < |r| ==>
      r[m].tag == Tag(tickets[m]) && r[m].emoji == EmojiFor(tickets[m]) && r[m].fallback == FallbackFor(tickets[m])
  {
    seq(|tickets|, m requires 0 <= m < |tickets| =>
      TelegramTicket(tickets[m], Tag(tickets[m]), EmojiFor(tickets[m]), FallbackFor(tickets[m])))
  }

  /** Tickets built by the combination generator have three legs, so none carries the fallback marker. */
  lemma NoFallbackForTriples(tickets: seq<Ticket>)
    requires forall m :: 0 <= m < |tickets| ==> |tickets[m].legs| == 3
    ensures forall m :: 0 <= m < |Telegram(tickets)| ==> Telegram(tickets)[m].fallback.None?
  {
  }
}
