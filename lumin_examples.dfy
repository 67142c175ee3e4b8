/** The question "What is Magnitude", taken apart by the string
    operations the chat assistant applies to it. */
module QueryExample {
  import opened Text

  /** "what is magnitude" holds neither "max" nor the map keywords. */
  lemma NoMaxOrMapInWhatIsMagnitude()
    ensures !Contains("what is magnitude", "max") && !Contains("what is magnitude", "map")
    ensures !Contains("what is magnitude", "scan")
  {
    AbsentCharNotContained("what is magnitude", "max", 2);
    AbsentCharNotContained("what is magnitude", "map", 2);
    AbsentCharNotContained("what is magnitude", "scan", 1);
  }

  /** "what is magnitude" holds neither "frequency" nor "time". */
  lemma NoChartWordInWhatIsMagnitude()
    ensures !Contains("what is magnitude", "frequency") && !Contains("what is magnitude", "time")
  {
    AbsentCharNotContained("what is magnitude", "frequency", 0);
    // Its only 'e' is the last character, and the four characters ending there are "tude".
    var a := "what is magnitud";
    var s := a + "e";
    assert s == "what is magnitude";
    assert 'e' !in a;
    ContainsIff(s, "time");
    forall n | 0 <= n && n + 4 <= |s| ensures !OccursAt(s, "time", n) {
      if n + 4 < |s| {
        assert s[n..n + 4][3] == a[n + 3];
      } else {
        assert s[n..n + 4][1] == a[14] == 'u';
      }
    }
  }

  /** Removing "what is" from "what is magnitude" leaves " magnitude". */
  lemma WhatIsRemoved()
    ensures ReplaceAll("what is magnitude", "what is", "") == " magnitude"
  {
    // Local names keep the solver from unfolding the replacement on the literals.
    var t, rest := "what is magnitude", " magnitude";
    assert t[..7] == "what is" && t[7..] == rest;
    AbsentCharNotContained(rest, "what is", 0);
    ReplaceNothingFound(rest, "what is", "");
  }

  /** " magnitude" holds no other filler phrase. */
  lemma NoOtherFillerInMagnitude()
    ensures ReplaceAll(ReplaceAll(" magnitude", "explain", ""), "who is", "") == " magnitude"
  {
    var rest := " magnitude";
    AbsentCharNotContained(rest, "explain", 1);
    ReplaceNothingFound(rest, "explain", "");
    AbsentCharNotContained(rest, "who is", 0);
    ReplaceNothingFound(rest, "who is", "");
  }

  /** Lower-casing "What is Magnitude". */
  lemma LowerWhatIsMagnitude()
    ensures Lower("What is Magnitude") == "what is magnitude"
  {
  }

  /** Trimming " magnitude" leaves "magnitude". */
  lemma StripMagnitude()
    ensures Strip(" magnitude") == "magnitude"
  {
    var rest := " magnitude";
    assert IsSpace(rest[0]) && rest[1..] == "magnitude";
    assert !IsSpace('m') && !IsSpace('e');
    assert StripLeft(rest) == StripLeft("magnitude") == "magnitude";
    assert StripRight("magnitude") == "magnitude";
  }
}

/** Worked examples of the chat assistant, on the questions its input
    box suggests (seismic_v4.py:438) and its command list names
    (seismic_v4.py:454). */
module LuminExamples {
  import opened Common
  import opened Text
  import opened Events
  import opened Lumin
  import opened QueryExample

  /** Cleaning "what is magnitude" leaves "magnitude". */
  lemma CleanWhatIsMagnitude()
    ensures CleanQuery("what is magnitude") == "magnitude"
  {
    WhatIsRemoved();
    NoOtherFillerInMagnitude();
    StripMagnitude();
  }

  /** No chart keyword occurs in "what is magnitude". */
  lemma NoKeywordInWhatIsMagnitude()
    ensures FirstKeyword("what is magnitude", ChartKnowledge) == None
  {
    NoMaxOrMapInWhatIsMagnitude();
    NoChartWordInWhatIsMagnitude();
  }

  /** "What is Magnitude" is neither a greeting, nor "max", nor a keyword:
      the filler is stripped and "magnitude" is looked up. */
  lemma WhatIsMagnitudeIsLookedUp(df: Table, search: string -> string)
    ensures LuminBrain("What is Magnitude", df, search) == Ok(search("magnitude"))
  {
    LowerWhatIsMagnitude();
    NoMaxOrMapInWhatIsMagnitude();
    NoKeywordInWhatIsMagnitude();
    CleanWhatIsMagnitude();
  }

  /** "explain map" holds "map" but not "max". */
  lemma MapWordInExplainMap()
    ensures !Contains("explain map", "max") && Contains("explain map", "map")
  {
    assert !ContainsFrom("explain map", "max", 4) && !ContainsFrom("explain map", "max", 0);
    assert ContainsFrom("explain map", "map", 0);
  }

  /** "Explain Map" selects the map explanation. */
  lemma ExplainMapExample(df: Table, search: string -> string)
    ensures LuminBrain("Explain Map", df, search) == Ok(MapAnswer)
  {
    assert Lower("Explain Map") == "explain map";
    MapWordInExplainMap();
  }
}
