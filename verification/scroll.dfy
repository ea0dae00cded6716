/** Target extraction of the feature-card click handler. */
module SmoothScroll {

  /** `href.substring(1)`: everything after the first character; the empty
      string stays empty because `substring` clamps its start. */
  function TargetId(href: string): (r: string)
    ensures |href| > 0 ==> [href[0]] + r == href
    ensures |href| == 0 ==> r == ""
    ensures |r| == if |href| == 0 then 0 else |href| - 1
  {
    if |href| == 0 then "" else href[1..]
  }

  /** A same-page anchor `#id` yields `id`. */
  lemma AnchorTarget(id: string)
    ensures TargetId("#" + id) == id
  {
    assert ("#" + id)[1..] == id;
  }
}
