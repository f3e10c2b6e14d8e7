/** The predictor's advice (app.py lines 25-31): the predicted sleep
    duration in hours falls into one of three bands, each with a fixed
    message. The prediction itself comes from the fitted pipeline, which is
    not part of this model, so it is an arbitrary `real` here. */
module Conclusion {

  const BelowMessage: string :=
    "Waktu tidur Anda lebih rendah dari rekomendasi sehat (7-9 jam). Sebaiknya tingkatkan durasi tidur untuk kesehatan yang lebih baik."
  const HealthyMessage: string :=
    "Waktu tidur Anda berada dalam rentang yang sehat. Pertahankan gaya hidup sehat ini."
  const AboveMessage: string :=
    "Waktu tidur Anda lebih dari yang disarankan. Pertimbangkan untuk mengurangi waktu tidur yang berlebihan untuk menjaga kesehatan."

  /** The three messages, from the shortest sleep band to the longest. */
  const Messages: seq<string> := [BelowMessage, HealthyMessage, AboveMessage]

  /** Each band is selected exactly on its interval: below 6 hours, 6 to 8
      hours with both ends included, above 8 hours. */
  function GenerateConclusion(p: real): (m: string)
    ensures m == BelowMessage <==> p < 6.0
    ensures m == HealthyMessage <==> 6.0 <= p <= 8.0
    ensures m == AboveMessage <==> 8.0 < p
    ensures m in Messages
  {
    if p < 6.0 then BelowMessage
    else if 6.0 <= p <= 8.0 then HealthyMessage
    else AboveMessage
  }

  /** Position of a message in `Messages`: 0, 1 or 2. */
  function Rank(m: string): (k: nat)
  {
    if m == BelowMessage then 0 else if m == HealthyMessage then 1 else 2
  }

  /** A longer predicted sleep never selects an earlier band. */
  lemma ConclusionMonotone(p: real, q: real)
    requires p <= q
    ensures Rank(GenerateConclusion(p)) <= Rank(GenerateConclusion(q))
  {
  }

  /** Both boundaries belong to the middle band. */
  lemma BoundariesAreHealthy()
    ensures GenerateConclusion(6.0) == HealthyMessage
    ensures GenerateConclusion(8.0) == HealthyMessage
  {
  }
}
