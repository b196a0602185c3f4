/** `format_reply` of `main.py`: the text sent back for a diagnosis. */
module Reply {

  import opened Wrappers
  import opened Strings
  import opened Records
  import Language

  /** The fixed "could not understand the photo" messages. */
  const TamilApology := "மன்னிக்கவும், படத்தை புரிந்து கொள்ள முடியவில்லை."
  const HindiApology := "क्षमा करें, फोटो समझ नहीं आया।"

  /** The placeholder for a missing disease name or missing treatment steps. */
  const TamilUnknown := "தெரியவில்லை"
  const HindiUnknown := "अज्ञात"

  /** The text around the five substituted values of the reply template. */
  datatype Labels = Labels(disease: string, english: string, confidence: string, treatment: string, cost: string)

  const TamilLabels := Labels("நோய்: ", "\nஆங்கிலம்: ", "\nநம்பிக்கை: ", "\nசிகிச்சை: ", "\nசெலவு: ")
  const HindiLabels := Labels("रोग: ", "\nअंग्रेजी: ", "\nविश्वास: ", "\nइलाज: ", "\nलागत: ")

  /** `"ta"` selects Tamil; every other code gets Hindi. */
  function Apology(lang: string): string {
    if lang == Language.Tamil then TamilApology else HindiApology
  }

  function Unknown(lang: string): string {
    if lang == Language.Tamil then TamilUnknown else HindiUnknown
  }

  function LabelsFor(lang: string): Labels {
    if lang == Language.Tamil then TamilLabels else HindiLabels
  }

  /** The reply template: `{conf}%` and `₹{cost}` with their labels. */
  function Render(l: Labels, name: string, eng: string, conf: int, steps: string, cost: int): string {
    l.disease + name + l.english + eng + l.confidence + ShowInt(conf) + "%"
    + l.treatment + steps + l.cost + "₹" + ShowInt(cost)
  }

  /** The treatment steps joined by `", "`; the placeholder only when the key is absent. */
  function StepsText(d: Diagnosis, lang: string): string {
    Join(d.treatmentSteps.GetOr([Unknown(lang)]), ", ")
  }

  lemma RenderShowsName(l: Labels, name: string, eng: string, conf: int, steps: string, cost: int)
    ensures Contains(Render(l, name, eng, conf, steps, cost), name)
  {
    var c, k := ShowInt(conf), ShowInt(cost);
    TailRegroup(l.disease + name, l.english, eng, l.confidence, c, "%", l.treatment, steps, l.cost, "₹", k);
    ContainsMiddle(l.disease, name, l.english + eng + l.confidence + c + "%" + l.treatment + steps + l.cost + "₹" + k);
  }

  /** Regroups the pieces that follow a reply's head, so the head can be seen as a prefix. */
  lemma TailRegroup(h: string, x1: string, x2: string, x3: string, x4: string, x5: string,
                    x6: string, x7: string, x8: string, x9: string, x10: string)
    ensures h + x1 + x2 + x3 + x4 + x5 + x6 + x7 + x8 + x9 + x10
         == h + (x1 + x2 + x3 + x4 + x5 + x6 + x7 + x8 + x9 + x10)
  {
  }

  lemma RenderShowsConfidence(l: Labels, name: string, eng: string, conf: int, steps: string, cost: int)
    ensures Contains(Render(l, name, eng, conf, steps, cost), ShowInt(conf) + "%")
  {
    var c, k := ShowInt(conf), ShowInt(cost);
    var a := l.disease + name + l.english + eng + l.confidence;
    MiddleRegroup(a, c, "%", l.treatment, steps, l.cost, "₹", k);
    ContainsMiddle(a, c + "%", l.treatment + steps + l.cost + "₹" + k);
  }

  /** Regroups a reply around two adjacent pieces, so they can be seen as one infix. */
  lemma MiddleRegroup(a: string, m1: string, m2: string, y1: string, y2: string, y3: string, y4: string, y5: string)
    ensures a + m1 + m2 + y1 + y2 + y3 + y4 + y5 == a + (m1 + m2) + (y1 + y2 + y3 + y4 + y5)
  {
  }

  lemma RenderShowsSteps(l: Labels, name: string, eng: string, conf: int, steps: string, cost: int)
    ensures Contains(Render(l, name, eng, conf, steps, cost), l.treatment + steps + l.cost)
  {
    var a := l.disease + name + l.english + eng + l.confidence + ShowInt(conf) + "%";
    var b := "₹" + ShowInt(cost);
    assert Render(l, name, eng, conf, steps, cost) == a + (l.treatment + steps + l.cost) + b;
    ContainsMiddle(a, l.treatment + steps + l.cost, b);
  }

  /** The rendered reply ends with the cost: in rupees, and with a digit. */
  lemma RenderShowsCost(l: Labels, name: string, eng: string, conf: int, steps: string, cost: int)
    ensures Contains(Render(l, name, eng, conf, steps, cost), "₹" + ShowInt(cost))
    ensures var r := Render(l, name, eng, conf, steps, cost); IsDigit(r[|r| - 1])
  {
    var k := ShowInt(cost);
    var a := l.disease + name + l.english + eng + l.confidence + ShowInt(conf) + "%" + l.treatment + steps + l.cost;
    assert Render(l, name, eng, conf, steps, cost) == a + ("₹" + k) + "";
    ContainsMiddle(a, "₹" + k, "");
    assert IsDigit(k[|k| - 1]) by {
      if cost < 0 { assert k[|k| - 1] == ShowNat(-cost)[|ShowNat(-cost)| - 1]; }
    }
  }

  /** The apologies end in a sentence mark, never in a digit. */
  lemma ApologyLastChar(lang: string)
    ensures |Apology(lang)| > 0 && !IsDigit(Apology(lang)[|Apology(lang)| - 1])
  {
  }

  /**
   `format_reply`: the apology in the reply language exactly when the
   diagnosis is empty or escalates, whatever its other fields hold;
   otherwise a text showing the disease name (or the placeholder), the
   confidence as a percentage and the cost in rupees.
   */
  function FormatReply(d: Diagnosis, lang: string): (r: string)
    ensures |r| > 0
    ensures r == Apology(lang) <==> IsEmpty(d) || Escalates(d)
    ensures !(IsEmpty(d) || Escalates(d)) ==>
      && Contains(r, d.diagnosis.GetOr(Unknown(lang)))
      && Contains(r, ShowInt(d.confidence.GetOr(0)) + "%")
      && Contains(r, "₹" + ShowInt(d.estimatedCostInr.GetOr(0)))
      && Contains(r, LabelsFor(lang).treatment + StepsText(d, lang) + LabelsFor(lang).cost)
  {
    if IsEmpty(d) || Escalates(d) then Apology(lang)
    else
      var name := d.diagnosis.GetOr(Unknown(lang));
      var eng := d.englishName.GetOr("");
      var conf := d.confidence.GetOr(0);
      var cost := d.estimatedCostInr.GetOr(0);
      var r := Render(LabelsFor(lang), name, eng, conf, StepsText(d, lang), cost);
      RenderShowsName(LabelsFor(lang), name, eng, conf, StepsText(d, lang), cost);
      RenderShowsConfidence(LabelsFor(lang), name, eng, conf, StepsText(d, lang), cost);
      RenderShowsSteps(LabelsFor(lang), name, eng, conf, StepsText(d, lang), cost);
      RenderShowsCost(LabelsFor(lang), name, eng, conf, StepsText(d, lang), cost);
      ApologyLastChar(lang);
      r
  }

  /**
   The "unknown" placeholder stands in for the steps only when the key is
   missing; a present but empty list renders as nothing.
   */
  lemma StepsPlaceholder(d: Diagnosis, lang: string)
    requires !(IsEmpty(d) || Escalates(d))
    ensures d.treatmentSteps.None? ==>
      Contains(FormatReply(d, lang), LabelsFor(lang).treatment + Unknown(lang) + LabelsFor(lang).cost)
    ensures d.treatmentSteps == Some([]) ==>
      Contains(FormatReply(d, lang), LabelsFor(lang).treatment + LabelsFor(lang).cost)
  {
    if d.treatmentSteps == Some([]) {
      assert StepsText(d, lang) == "";
      assert LabelsFor(lang).treatment + "" == LabelsFor(lang).treatment;
    }
  }

  /** Every code other than `"ta"` is answered in Hindi. */
  lemma ReplyFallsBackToHindi(d: Diagnosis, lang: string)
    requires lang != Language.Tamil
    ensures FormatReply(d, lang) == FormatReply(d, Language.Hindi)
  {
  }
}
