/** The critic-score badge on a game card: hidden without a score, otherwise
    coloured by score bucket. Scores are modelled as integers. */
module CriticScore {

  import opened Wrappers

  /** The badge's colour scheme. */
  datatype Scheme = Gray | Yellow | Green

  /** Buckets ordered from worst to best. */
  function Rank(s: Scheme): nat {
    match s
    case Gray => 0
    case Yellow => 1
    case Green => 2
  }

  /** The colour bucket of a score shown on a badge. */
  function ColorScheme(score: int): (s: Scheme)
    ensures s == Green <==> score > 85
    ensures s == Yellow <==> 71 <= score <= 85
    ensures s == Gray <==> score <= 70
  {
    if score > 85 then Green else if score > 70 then Yellow else Gray
  }

  /** What is rendered: the score in a coloured badge. */
  datatype Badge = Badge(scheme: Scheme, score: int)

  /** The component: nothing for an absent or zero score, otherwise a badge
      showing the score in its bucket's colour. */
  function CriticBadge(score: Option<int>): (r: Option<Badge>)
    ensures r.None? <==> score.None? || score.value == 0
    ensures r.Some? ==> r.value.score == score.value
    ensures r.Some? ==> (r.value.scheme == Green <==> score.value > 85)
    ensures r.Some? ==> (r.value.scheme == Yellow <==> 71 <= score.value <= 85)
    ensures r.Some? ==> (r.value.scheme == Gray <==> score.value <= 70)
  {
    if score.None? || score.value == 0 then None
    else Some(Badge(ColorScheme(score.value), score.value))
  }

  /** A higher score never falls in a lower bucket. */
  lemma ColorSchemeMonotone(a: int, b: int)
    requires a <= b
    ensures Rank(ColorScheme(a)) <= Rank(ColorScheme(b))
  {
  }

  /** Negative scores are shown, in gray. */
  lemma NegativeScoreIsGray(score: int)
    requires score < 0
    ensures CriticBadge(Some(score)) == Some(Badge(Gray, score))
  {
  }
}
