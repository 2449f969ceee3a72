/**
 * A row of badges capped at `limit`: `items.slice(0, limit)` followed, when
 * something was cut off, by a "+N more" badge. The jobs page uses it for
 * skills (cap 6), the projects page for technologies (cap 3).
 */
module Badges {
  import opened Wrappers
  import Text

  /** The badges shown, and the number hidden behind "+N more" when there is such a badge. */
  datatype Row = Row(shown: seq<string>, more: Option<nat>)

  function Truncate(items: seq<string>, limit: nat): (row: Row)
    ensures |row.shown| <= limit && |row.shown| <= |items| && row.shown == items[..|row.shown|]
    ensures |row.shown| == |items| || |row.shown| == limit
    ensures row.more.Some? <==> |items| > limit
    ensures row.more.Some? ==> row.more.value > 0 && row.shown + items[|row.shown|..] == items &&
                               |items[|row.shown|..]| == row.more.value
  {
    if |items| > limit then Row(items[..limit], Some(|items| - limit))
    else Row(items, None)
  }

  /** The label of the overflow badge, `+${n} more`. */
  function MoreLabel(n: nat): (caption: string)
    ensures |caption| >= 7 && caption[..1] == "+" && caption[|caption| - 5..] == " more"
    ensures forall i :: 1 <= i < |caption| - 5 ==> Text.IsDigit(caption[i])
    ensures Text.DigitsValue(caption[1..|caption| - 5]) == n
    ensures caption[1] == '0' ==> n == 0
  {
    var digits := Text.Decimal(n);
    Text.DecimalRoundTrip(n);
    var caption := "+" + digits + " more";
    assert caption[1..|caption| - 5] == digits;
    caption
  }

  /** The captions of a row as rendered: the shown items, then the overflow badge when there is one. */
  function Captions(row: Row): (captions: seq<string>)
    ensures |captions| == |row.shown| + (if row.more.Some? then 1 else 0)
    ensures captions[..|row.shown|] == row.shown
    ensures row.more.Some? ==>
      var last := captions[|captions| - 1];
      |last| >= 7 && last[..1] == "+" && last[|last| - 5..] == " more" &&
      (forall i :: 1 <= i < |last| - 5 ==> Text.IsDigit(last[i])) &&
      Text.DigitsValue(last[1..|last| - 5]) == row.more.value
  {
    match row.more
    case None => row.shown
    case Some(n) => row.shown + [MoreLabel(n)]
  }
}
