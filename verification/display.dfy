/** The page's display helpers: the risk and confidence class mappers, the
    rule that hides empty detail fields, and the header fallbacks of a scan
    result. */
module Display {
  import opened Wrappers
  import opened JsText
  import opened Records

  /** The class of any risk or confidence the mappers do not recognise. */
  const Neutral := "text-gray-700"

  const RiskHigh := "text-red-600 font-semibold"
  const RiskMedium := "text-yellow-600 font-semibold"
  const RiskLow := "text-green-600 font-semibold"
  const RiskInformational := "text-blue-600 font-semibold"

  const ConfidenceHigh := "text-green-700 font-semibold"
  const ConfidenceMedium := "text-yellow-700 font-semibold"
  const ConfidenceLow := "text-orange-600 font-semibold"
  const ConfidenceTentative := "text-purple-600 font-semibold"

  /** `getRiskColor(risk)`: a switch on `risk?.toLowerCase()`. */
  function RiskColor(risk: Option<string>): (c: string)
    ensures c in {Neutral, RiskHigh, RiskMedium, RiskLow, RiskInformational}
    ensures risk.None? ==> c == Neutral
  {
    match risk
    case None => Neutral
    case Some(r) =>
      var k := ToLower(r);
      if k == "high" then RiskHigh
      else if k == "medium" then RiskMedium
      else if k == "low" then RiskLow
      else if k == "informational" then RiskInformational
      else Neutral
  }

  /** `getConfidenceColor(confidence)`: "high" and "firm" share a class. */
  function ConfidenceColor(confidence: Option<string>): (c: string)
    ensures c in {Neutral, ConfidenceHigh, ConfidenceMedium, ConfidenceLow, ConfidenceTentative}
    ensures confidence.None? ==> c == Neutral
  {
    match confidence
    case None => Neutral
    case Some(c) =>
      var k := ToLower(c);
      if k == "high" || k == "firm" then ConfidenceHigh
      else if k == "medium" then ConfidenceMedium
      else if k == "low" then ConfidenceLow
      else if k == "tentative" then ConfidenceTentative
      else Neutral
  }

  /** `risk` is present and spells `w` in any case. */
  predicate Spells(risk: Option<string>, w: string)
  {
    risk.Some? && EqualsIgnoringCase(risk.value, w)
  }

  /** The risk class is chosen by a case-insensitive comparison with the four
      risk levels; anything else, a missing risk included, is neutral. */
  lemma RiskColorSpec(risk: Option<string>)
    ensures RiskColor(risk) == RiskHigh <==> Spells(risk, "high")
    ensures RiskColor(risk) == RiskMedium <==> Spells(risk, "medium")
    ensures RiskColor(risk) == RiskLow <==> Spells(risk, "low")
    ensures RiskColor(risk) == RiskInformational <==> Spells(risk, "informational")
    ensures RiskColor(risk) == Neutral <==>
              !Spells(risk, "high") && !Spells(risk, "medium") && !Spells(risk, "low")
              && !Spells(risk, "informational")
  {
    if risk.Some? {
      ToLowerEqualsIff(risk.value, "high");
      ToLowerEqualsIff(risk.value, "medium");
      ToLowerEqualsIff(risk.value, "low");
      ToLowerEqualsIff(risk.value, "informational");
    }
  }

  /** The confidence class is chosen the same way; "high" and "firm" map to
      one class. */
  lemma ConfidenceColorSpec(confidence: Option<string>)
    ensures ConfidenceColor(confidence) == ConfidenceHigh <==>
              Spells(confidence, "high") || Spells(confidence, "firm")
    ensures ConfidenceColor(confidence) == ConfidenceMedium <==> Spells(confidence, "medium")
    ensures ConfidenceColor(confidence) == ConfidenceLow <==> Spells(confidence, "low")
    ensures ConfidenceColor(confidence) == ConfidenceTentative <==> Spells(confidence, "tentative")
    ensures ConfidenceColor(confidence) == Neutral <==>
              !Spells(confidence, "high") && !Spells(confidence, "firm") && !Spells(confidence, "medium")
              && !Spells(confidence, "low") && !Spells(confidence, "tentative")
  {
    if confidence.Some? {
      ToLowerEqualsIff(confidence.value, "high");
      ToLowerEqualsIff(confidence.value, "firm");
      ToLowerEqualsIff(confidence.value, "medium");
      ToLowerEqualsIff(confidence.value, "low");
      ToLowerEqualsIff(confidence.value, "tentative");
    }
  }

  /** Both mappers ignore the case of their input. */
  lemma ColorsIgnoreCase(a: string, b: string)
    requires EqualsIgnoringCase(a, b)
    ensures RiskColor(Some(a)) == RiskColor(Some(b))
    ensures ConfidenceColor(Some(a)) == ConfidenceColor(Some(b))
  {
    ToLowerIgnoresCase(a, b);
  }

  /** A value handed to `renderScanResultField`. */
  datatype FieldValue = Undefined | Null | Text(text: string) | Number(number: int)

  /** `renderScanResultField` renders nothing for this value. */
  predicate Suppressed(v: FieldValue): (hidden: bool)
    ensures v.Number? ==> !hidden
    ensures v.Undefined? || v.Null? ==> hidden
  {
    v.Undefined? || v.Null? || (v.Text? && Trim(v.text) == "")
  }

  /** A field is hidden exactly when it is missing, null or whitespace-only text; a
      number, 0 included, is always shown. */
  lemma SuppressedIff(v: FieldValue)
    ensures Suppressed(v) <==> v.Undefined? || v.Null? || (v.Text? && AllWhiteSpace(v.text))
  {
    if v.Text? {
      TrimEmptyIff(v.text);
    }
  }

  /** The detail grid: the labelled fields, in their fixed order, minus the
      suppressed ones. */
  function VisibleFields(fields: seq<(string, FieldValue)>): (r: seq<(string, FieldValue)>)
    ensures |r| <= |fields|
    ensures forall x :: x in r <==> x in fields && !Suppressed(x.1)
  {
    if |fields| == 0 then []
    else if Suppressed(fields[0].1) then VisibleFields(fields[1..])
    else [fields[0]] + VisibleFields(fields[1..])
  }

  /** The grid of two field lists is the grid of the first followed by the
      grid of the second: the fixed order is kept. */
  lemma {:induction false} VisibleFieldsAppend(a: seq<(string, FieldValue)>, b: seq<(string, FieldValue)>)
    ensures VisibleFields(a + b) == VisibleFields(a) + VisibleFields(b)
    decreases |a|
  {
    if |a| > 0 {
      assert (a + b)[1..] == a[1..] + b;
      VisibleFieldsAppend(a[1..], b);
    } else {
      assert a + b == b;
    }
  }

  /** Placeholder of a scan result with neither name nor alert. */
  const Unnamed := "Unnamed Scan Result"

  /** `result.name || result.alert || 'Unnamed Scan Result'`: never the
      empty string, though it can be whitespace. */
  function HeaderTitle(r: ScanResult): (h: string)
    ensures h != ""
  {
    OrElse(r.name, OrElse(r.alert, Unnamed))
  }

  /** The header shows the name, else the alert, else the placeholder; an
      empty name or alert counts as missing. `||` tests truthiness, not
      content, so a whitespace-only name is shown and hides the alert. */
  lemma HeaderTitleFallback(r: ScanResult)
    ensures Truthy(r.name) ==> HeaderTitle(r) == r.name.value
    ensures !Truthy(r.name) && Truthy(r.alert) ==> HeaderTitle(r) == r.alert.value
    ensures !Truthy(r.name) && !Truthy(r.alert) ==> HeaderTitle(r) == Unnamed
    ensures r.name.Some? && r.name.value != "" && AllWhiteSpace(r.name.value) ==> HeaderTitle(r) == r.name.value
  {
  }

  /** `result.risk || 'N/A'`: the risk label is never the empty string. */
  function RiskLabel(r: ScanResult): (l: string)
    ensures l != ""
    ensures Truthy(r.risk) ==> l == r.risk.value
    ensures !Truthy(r.risk) ==> l == "N/A"
  {
    OrElse(r.risk, "N/A")
  }
}
