/** lib/trendAnalyzer.ts: the trend analysis with its field defaults and fallback lists, and the
    choice of a design concept from one randomly selected idea. The OpenAI completions and the
    JSON.parse of their text are abstract outcomes. */
module TrendAnalyzer {
  import opened Common

  datatype TrendAnalysis = TrendAnalysis(ideas: seq<string>, keywords: seq<string>, popularThemes: seq<string>)

  /** The object JSON.parse made of the completion's text; a key the model left out is None. */
  datatype ParsedTrends = ParsedTrends(
    ideas: Option<seq<string>>,
    keywords: Option<seq<string>>,
    popularThemes: Option<seq<string>>)

  /** The generic analysis used when the completion or its parsing throws. */
  function FallbackTrends(niche: string): (t: TrendAnalysis)
    ensures |t.ideas| == 5 && |t.keywords| == 5 && |t.popularThemes| == 5
    ensures t.keywords[0] == niche
    ensures forall idea :: idea in t.ideas ==> ContainsSub(idea, niche)
    ensures forall keyword :: keyword in t.keywords ==> ContainsSub(keyword, niche)
  {
    var t := TrendAnalysis(
      [ niche + " typography design",
        "Minimalist " + niche + " illustration",
        "Vintage " + niche + " aesthetic",
        "Modern " + niche + " pattern",
        "Abstract " + niche + " art" ],
      [ niche,
        niche + " design",
        niche + " art",
        niche + " gift",
        niche + " merch" ],
      [ "Typography", "Minimalist", "Vintage", "Modern", "Abstract" ]);
    ContainsPiece("", niche, " typography design");
    ContainsPiece("Minimalist ", niche, " illustration");
    ContainsPiece("Vintage ", niche, " aesthetic");
    ContainsPiece("Modern ", niche, " pattern");
    ContainsPiece("Abstract ", niche, " art");
    ContainsPiece("", niche, "");
    ContainsPiece("", niche, " design");
    ContainsPiece("", niche, " art");
    ContainsPiece("", niche, " gift");
    ContainsPiece("", niche, " merch");
    assert niche + "" == niche;
    t
  }

  /** `analyzeTrends`: `completion` is the outcome of the OpenAI call together with JSON.parse. */
  function AnalyzeTrends(niche: string, completion: Step<ParsedTrends>): (t: TrendAnalysis)
    ensures completion.Threw? ==> t == FallbackTrends(niche)
    ensures completion.Done? ==>
      && (completion.value.ideas.Some? ==> t.ideas == completion.value.ideas.value)
      && (completion.value.keywords.Some? ==> t.keywords == completion.value.keywords.value)
      && (completion.value.popularThemes.Some? ==> t.popularThemes == completion.value.popularThemes.value)
    ensures completion.Done? ==>
      && (completion.value.ideas.None? ==> t.ideas == [])
      && (completion.value.keywords.None? ==> t.keywords == [])
      && (completion.value.popularThemes.None? ==> t.popularThemes == [])
  {
    match completion
    case Threw(_) => FallbackTrends(niche)
    case Done(parsed) =>
      TrendAnalysis(parsed.ideas.GetOr([]), parsed.keywords.GetOr([]), parsed.popularThemes.GetOr([]))
  }

  /** A value of `Math.random()`. */
  type Draw = r: real | 0.0 <= r < 1.0

  /** `Math.floor(Math.random() * n)`. */
  function SelectIndex(n: nat, draw: Draw): (i: int)
    ensures n == 0 ==> i == 0
    ensures n > 0 ==> 0 <= i < n
  {
    var x := draw * n as real;
    assert 0.0 <= x;
    assert n > 0 ==> x < n as real;
    x.Floor
  }

  /** Every index has a draw that selects it, so every idea can be chosen. */
  lemma EveryIndexSelectable(n: nat, k: nat)
    requires k < n
    ensures exists d: Draw :: SelectIndex(n, d) == k
  {
    var r := k as real / n as real;
    assert r * n as real == k as real;
    assert r < 1.0;
    var d: Draw := r;
    assert (k as real).Floor == k;
    assert SelectIndex(n, d) == k;
  }

  /** `trends.ideas[index]`: `undefined` (None) when the index is out of range, that is, when
      there are no ideas. */
  function SelectedIdea(ideas: seq<string>, draw: Draw): (idea: Option<string>)
    ensures |ideas| > 0 ==> idea.Some? && idea.value in ideas
    ensures |ideas| == 0 ==> idea.None?
  {
    var i := SelectIndex(|ideas|, draw);
    if 0 <= i < |ideas| then Some(ideas[i]) else None
  }

  /** A design concept: the text produced for one idea, or JavaScript `undefined` (None). */
  type Concept = Option<string>

  /** How a concept reads when it is interpolated into a template string. */
  function Render(c: Concept): (s: string)
    ensures c.Some? ==> s == c.value
    ensures c.None? ==> s == "undefined"
  {
    match c
    case Some(v) => v
    case None => "undefined"
  }

  /** `generateDesignConcept`: `draw` is the value of `Math.random()`, `completion` the outcome of
      the OpenAI call, whose content may be null (None) or empty. */
  function GenerateDesignConcept(niche: string, trends: TrendAnalysis, draw: Draw, completion: Step<Option<string>>): (c: Concept)
    ensures completion.Done? && Truthy(completion.value) ==> c == completion.value
    ensures !(completion.Done? && Truthy(completion.value)) ==> c == SelectedIdea(trends.ideas, draw)
    ensures completion.Threw? && |trends.ideas| > 0 ==> c.Some? && c.value in trends.ideas
    ensures completion.Threw? && |trends.ideas| == 0 ==> c.None?
    ensures |trends.ideas| > 0 ==> c.Some?
  {
    var randomIdea := SelectedIdea(trends.ideas, draw);
    match completion
    case Done(content) => if Truthy(content) then content else randomIdea
    case Threw(_) => randomIdea
  }
}
