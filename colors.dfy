/** The palette that tells journeys apart on the maps and charts. */
module Colors {
  import opened Wrappers
  import opened JsBuiltins

  /** `JOURNEY_COLORS`, in order. */
  const JourneyColors: seq<string> := [
    "#FF4444", "#00AA44", "#0066CC", "#FF8800", "#8800AA",
    "#CC6600", "#00AAAA", "#AA4400", "#0044AA", "#AA0088"
  ]

  /** `getJourneyColor(journeyIndex)`: the palette indexed by the truncating
      remainder of the index. A negative remainder reads past the array, which
      JavaScript answers with `undefined` (`None` here). */
  function GetJourneyColor(journeyIndex: int): (color: Option<string>)
    ensures color.Some? <==> journeyIndex >= 0 || journeyIndex % |JourneyColors| == 0
    ensures color.Some? ==> color.value in JourneyColors
    ensures journeyIndex >= 0 ==> color == Some(JourneyColors[journeyIndex % |JourneyColors|])
  {
    var slot := TruncRem(journeyIndex, |JourneyColors|);
    if slot >= 0 then Some(JourneyColors[slot]) else None
  }

  /** Ten colours, all different. */
  lemma PaletteSize()
    ensures |JourneyColors| == 10
    ensures forall i, j :: 0 <= i < j < |JourneyColors| ==> JourneyColors[i] != JourneyColors[j]
  {
  }

  /** Journeys ten apart share a colour. */
  lemma ColorPeriodic(journeyIndex: nat)
    ensures GetJourneyColor(journeyIndex + 10) == GetJourneyColor(journeyIndex)
  {
    assert (journeyIndex + 10) % 10 == journeyIndex % 10;
  }

  /** The first two colours, as the 0-based and the first 1-based journey
      get them. */
  lemma FirstColors()
    ensures GetJourneyColor(0) == Some("#FF4444")
    ensures GetJourneyColor(1) == Some("#00AA44")
  {
  }
}
