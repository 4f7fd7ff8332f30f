/** The `points` list of the plan reply: every timeline entry of the
    planner's answer rendered as one `"time: activity - description"` line. */
module Points {
  import opened Text

  /** One entry of the planner's `timeline`. `item.get(key)` has no default,
      so an absent key and a null one both come back as Python's `None`. */
  datatype TimelineItem = TimelineItem(time: Option<string>, activity: Option<string>, description: Option<string>)

  /** How an f-string renders `item.get(key)`: a missing value shows as `None`. */
  function Show(v: Option<string>): (r: string)
    ensures v.Some? ==> r == v.value
    ensures v.None? ==> r == "None"
  {
    match v
    case Some(s) => s
    case None => "None"
  }

  /** One formatted point. */
  function FormatPoint(item: TimelineItem): (r: string)
    ensures |r| == |Show(item.time)| + |Show(item.activity)| + |Show(item.description)| + 5
  {
    Show(item.time) + ": " + Show(item.activity) + " - " + Show(item.description)
  }

  /** A point is read back into its three parts by their lengths: the time,
      then `": "`, the activity, `" - "` and the description, in that order. */
  lemma FormatPointParts(item: TimelineItem)
    ensures var t, a, d := Show(item.time), Show(item.activity), Show(item.description);
      var p := FormatPoint(item);
      p[..|t|] == t &&
      p[|t|..|t| + 2] == ": " &&
      p[|t| + 2..|t| + 2 + |a|] == a &&
      p[|t| + 2 + |a|..|t| + 5 + |a|] == " - " &&
      p[|t| + 5 + |a|..] == d
  {
  }

  /** An entry with no keys at all still yields a point. */
  lemma EmptyItemPoint()
    ensures FormatPoint(TimelineItem(None, None, None)) == "None: None - None"
  {
  }

  /** `formatted_points` over `plan_data.get("timeline", [])`: one point per
      timeline entry, in timeline order, and none when the key is absent.
      A null `timeline` makes `for item in None` raise, and the route answers
      with an error instead of a plan: the result is then None. */
  method FormatPoints(timeline: Field<seq<TimelineItem>>) returns (points: Option<seq<string>>)
    ensures timeline.Null? <==> points.None?
    ensures timeline.Missing? ==> points == Some([])
    ensures timeline.Present? ==> points.Some? && |points.value| == |timeline.value|
    ensures timeline.Present? ==> forall i :: 0 <= i < |timeline.value| ==> points.value[i] == FormatPoint(timeline.value[i])
  {
    match timeline.Get([])
    case None =>
      points := None;
    case Some(items) =>
      var formatted: seq<string> := [];
      for i := 0 to |items|
        invariant |formatted| == i
        invariant forall k :: 0 <= k < i ==> formatted[k] == FormatPoint(items[k])
      {
        formatted := formatted + [FormatPoint(items[i])];
      }
      points := Some(formatted);
  }
}
