/** Lumin, the dashboard's rule-based chat assistant (`lumin_brain`) and
    its keyword table (`CHART_KNOWLEDGE`). */
module Lumin {
  import opened Common
  import opened Text
  import opened Events

  const Greeting := "Systems Online. I am Lumin. I can search the web or analyze your data."

  const MapAnswer := "The **Planetary Scan** (Map) visualizes global seismic events. The dots represent earthquakes; their size and color intensity indicate magnitude (Red/Large = High Magnitude). It helps identify tectonic fault lines."
  const FrequencyAnswer := "The **Frequency Spectrum** is a histogram. It shows that small earthquakes (left side) happen very often, while massive ones (right side) are rare. This follows the Gutenberg-Richter law."
  const TimeAnswer := "The **Activity Timeline** shows the sequence of events over time. Spikes indicate clusters of activity, helping to predict aftershocks."

  /** `CHART_KNOWLEDGE`, in the dictionary's iteration (insertion) order. */
  const ChartKnowledge: seq<(string, string)> :=
    [("map", MapAnswer), ("scan", MapAnswer), ("frequency", FrequencyAnswer), ("time", TimeAnswer)]

  /** The first entry of `kb` whose keyword occurs in `t`. */
  function FirstKeyword(t: string, kb: seq<(string, string)>): (r: Option<nat>)
    ensures r.Some? ==> r.value < |kb| && Contains(t, kb[r.value].0)
    ensures r.Some? ==> forall j :: 0 <= j < r.value ==> !Contains(t, kb[j].0)
    ensures r.None? <==> forall j :: 0 <= j < |kb| ==> !Contains(t, kb[j].0)
  {
    if kb == [] then None
    else if Contains(t, kb[0].0) then Some(0)
    else match FirstKeyword(t, kb[1..])
      case None => None
      case Some(i) => Some(i + 1)
  }

  /** The answer to "max": magnitude and place of the first peak row. */
  function PeakMessage(e: Event): string {
    "CRITICAL: Max Magnitude " + ShowMag(e.magnitude) + " M detected at " + e.location + "."
  }

  /** The question handed to the web lookup: the lower-cased text with every
      "what is", then every "explain", then every "who is" removed, trimmed. */
  function CleanQuery(t: string): (q: string)
    ensures q == [] || (!IsSpace(q[0]) && !IsSpace(q[|q| - 1]))
    ensures TrimmedFrom(q, ReplaceAll(ReplaceAll(ReplaceAll(t, "what is", ""), "explain", ""), "who is", ""))
  {
    Strip(ReplaceAll(ReplaceAll(ReplaceAll(t, "what is", ""), "explain", ""), "who is", ""))
  }

  /** `lumin_brain(txt, df)`. `search` is the web knowledge lookup, which
      itself never raises: it answers with a fixed sentence on failure. */
  function LuminBrain(txt: string, df: Table, search: string -> string): Outcome<string> {
    var t := Lower(txt);
    if t == "hi" || t == "hello" then Ok(Greeting)
    else if Contains(t, "max") then
      match PeakRow(df)
      case Raised(e) => Raised(e)
      case Ok(row) =>
        if "Location" !in df.columns then Raised(MissingColumn("Location")) else Ok(PeakMessage(row))
    else match FirstKeyword(t, ChartKnowledge)
      case Some(i) => Ok(ChartKnowledge[i].1)
      case None => Ok(search(CleanQuery(t)))
  }

  /** Only rule 2 can raise, and it raises exactly when the table lacks a
      column it reads or has no rows. */
  lemma LuminRaisesIff(txt: string, df: Table, search: string -> string)
    ensures LuminBrain(txt, df, search).Raised? <==>
      && Lower(txt) != "hi" && Lower(txt) != "hello" && Contains(Lower(txt), "max")
      && ("Magnitude" !in df.columns || |df.rows| == 0 || "Location" !in df.columns)
  {
  }

  /** The rules are tried on the lower-cased text, so the case of ASCII
      letters in the question never changes the answer. */
  lemma LuminIgnoresCase(txt: string, df: Table, search: string -> string)
    ensures LuminBrain(Lower(txt), df, search) == LuminBrain(txt, df, search)
  {
    LowerIdempotent(txt);
  }

  /** Rule 1: an exact greeting wins over everything else. */
  lemma LuminGreets(txt: string, df: Table, search: string -> string)
    requires Lower(txt) == "hi" || Lower(txt) == "hello"
    ensures LuminBrain(txt, df, search) == Ok(Greeting)
  {
  }

  /** Rule 2: "max" anywhere in a non-greeting reports the first row of
      largest magnitude, and fails as pandas does without rows or columns. */
  lemma LuminReportsFirstPeak(txt: string, df: Table, search: string -> string, k: int)
    requires Lower(txt) != "hi" && Lower(txt) != "hello"
    requires exists i :: OccursAt(Lower(txt), "max", i)
    requires "Magnitude" in df.columns && "Location" in df.columns
    requires IsFirstPeak(df.rows, k)
    ensures LuminBrain(txt, df, search)
         == Ok("CRITICAL: Max Magnitude " + ShowMag(df.rows[k].magnitude) + " M detected at " + df.rows[k].location + ".")
  {
    ContainsIff(Lower(txt), "max");
    FirstPeakUnique(df.rows, k);
  }

  /** Rule 2 on a table that cannot answer it. */
  lemma LuminMaxWithoutData(txt: string, df: Table, search: string -> string)
    requires Lower(txt) != "hi" && Lower(txt) != "hello"
    requires exists i :: OccursAt(Lower(txt), "max", i)
    requires "Magnitude" !in df.columns || |df.rows| == 0 || "Location" !in df.columns
    ensures LuminBrain(txt, df, search).Raised?
  {
    ContainsIff(Lower(txt), "max");
  }

  /** Rule 3: otherwise the first keyword of the table, in table order,
      that occurs in the text selects the fixed explanation. */
  lemma LuminExplainsChart(txt: string, df: Table, search: string -> string, i: int)
    requires Lower(txt) != "hi" && Lower(txt) != "hello"
    requires forall n :: !OccursAt(Lower(txt), "max", n)
    requires 0 <= i < |ChartKnowledge|
    requires exists n :: OccursAt(Lower(txt), ChartKnowledge[i].0, n)
    requires forall j, n :: 0 <= j < i ==> !OccursAt(Lower(txt), ChartKnowledge[j].0, n)
    ensures LuminBrain(txt, df, search) == Ok(ChartKnowledge[i].1)
  {
    var t := Lower(txt);
    ContainsIff(t, "max");
    ContainsIff(t, ChartKnowledge[i].0);
    forall j | 0 <= j < i ensures !Contains(t, ChartKnowledge[j].0) {
      ContainsIff(t, ChartKnowledge[j].0);
    }
  }

  /** Rule 4: with no greeting, no "max" and no keyword, the cleaned
      question goes to the web lookup unchanged and its answer is returned. */
  lemma LuminAsksTheWeb(txt: string, df: Table, search: string -> string)
    requires Lower(txt) != "hi" && Lower(txt) != "hello"
    requires forall n :: !OccursAt(Lower(txt), "max", n)
    requires forall j, n :: 0 <= j < |ChartKnowledge| ==> !OccursAt(Lower(txt), ChartKnowledge[j].0, n)
    ensures LuminBrain(txt, df, search) == Ok(search(CleanQuery(Lower(txt))))
  {
    var t := Lower(txt);
    ContainsIff(t, "max");
    forall j | 0 <= j < |ChartKnowledge| ensures !Contains(t, ChartKnowledge[j].0) {
      ContainsIff(t, ChartKnowledge[j].0);
    }
  }
}
