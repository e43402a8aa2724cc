/** The closed set of voice emotions, as the string-valued enum `EmotionLabel` declares it. */
module EmotionLabels {

  datatype EmotionLabel = Neutral | Angry | Sad | Positive {

    /** The enum member's string value. */
    function Value(): string
    {
      match this
      case Neutral => "neutral"
      case Angry => "angry"
      case Sad => "sad"
      case Positive => "positive"
    }
  }

  /** The values in declaration order, as `[e.value for e in EmotionLabel]` yields them. */
  function LabelValues(): (vs: seq<string>)
    ensures |vs| == 4
    ensures forall l: EmotionLabel :: l.Value() in vs
    ensures forall v :: v in vs ==> exists l: EmotionLabel :: l.Value() == v
  {
    [Neutral.Value(), Angry.Value(), Sad.Value(), Positive.Value()]
  }
}
