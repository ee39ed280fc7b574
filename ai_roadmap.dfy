/** The "AI Playbook" widget: a persona picker and a window of three
  * recommendation indices into that persona's fixed pool of four ideas,
  * advanced by a "Refresh ideas" button. */
module Roadmap {
  import opened Flags

  datatype PersonaKey = Growth | Product | Content

  datatype Impact = High | Medium | Quick

  datatype RecommendationItem = RecommendationItem(title: string, description: string, impact: Impact)

  datatype PersonaProfile = PersonaProfile(caption: string, focus: string, kpis: seq<string>, baseline: string)

  /** The order in which the persona buttons are laid out (the key order of the profile table). */
  const PersonaOrder: seq<PersonaKey> := [Growth, Product, Content]

  /** The heading, focus text, KPI chips and gap assessment shown for each persona. */
  function Profile(p: PersonaKey): PersonaProfile
  {
    match p
    case Growth =>
      PersonaProfile(
        "Growth & Conversion",
        "Elevate sign-ups, capture leads, and prioritize activation speed.",
        ["Trial sign-ups", "Activation rate", "Conversion velocity"],
        "Competitors convert via dense funnels yet struggle with clarity and speed on mobile.")
    case Product =>
      PersonaProfile(
        "Product & Retention",
        "Highlight depth of tooling, increase stickiness, and drive daily habit loops.",
        ["Feature adoption", "Return frequency", "Average session length"],
        "Tools over-index on breadth but under-communicate onboarding pathways and feedback loops.")
    case Content =>
      PersonaProfile(
        "Content & SEO",
        "Capture underserved queries, scale topical authority, and reduce bounce.",
        ["Organic traffic", "SERP coverage", "Scroll depth"],
        "Competitors have scattered clusters and weak schema discipline, leaving opportunity for structured depth.")
  }

  /** The four ideas on offer for each persona, as one configuration value. */
  datatype Pools = Pools(growth: seq<RecommendationItem>, product: seq<RecommendationItem>, content: seq<RecommendationItem>)

  function PoolOf(pools: Pools, p: PersonaKey): seq<RecommendationItem>
  {
    match p
    case Growth => pools.growth
    case Product => pools.product
    case Content => pools.content
  }

  /** The shipped pools all have exactly four entries. */
  lemma ShippedPoolsWellFormed()
    ensures PoolsWellFormed(RecommendationPool())
  {
    var pools := RecommendationPool();
    assert |pools.growth| == 4 && |pools.product| == 4 && |pools.content| == 4;
    forall p ensures |PoolOf(pools, p)| == RotationModulus {
      match p
      case Growth =>
      case Product =>
      case Content =>
    }
  }

  /** Every pool has exactly four entries, the modulus the rotation hard-codes. */
  predicate PoolsWellFormed(pools: Pools)
  {
    forall p :: |PoolOf(pools, p)| == RotationModulus
  }

  /** The pools the widget ships with. */
  function RecommendationPool(): (pools: Pools)
  {
    Pools(
      [ RecommendationItem("Adaptive Hero Sequencing", AdaptiveHeroSequencingText, High),
        RecommendationItem("AI-Fueled Upgrade Nudges", AIFueledUpgradeNudgesText, Medium),
        RecommendationItem("Smart Conversion Checklist", SmartConversionChecklistText, High),
        RecommendationItem("Predictive Lead Gen Popover", PredictiveLeadGenPopoverText, Quick)],
      [ RecommendationItem("Dynamic Workflow Preview", DynamicWorkflowPreviewText, High),
        RecommendationItem("Usage Heatmap Insights", UsageHeatmapInsightsText, Medium),
        RecommendationItem("AI Concierge Onboarding", AIConciergeOnboardingText, High),
        RecommendationItem("Gamified Retention Loop", GamifiedRetentionLoopText, Quick)],
      [ RecommendationItem("Programmatic Pillar Library", ProgrammaticPillarLibraryText, High),
        RecommendationItem("Interactive Schema Builder", InteractiveSchemaBuilderText, Medium),
        RecommendationItem("Semantic FAQ Engine", SemanticFAQEngineText, High),
        RecommendationItem("Auto-Optimize Content Depth", AutoOptimizeContentDepthText, Quick)])
  }

  // The body text of each pool entry, one constant per idea.
  const AdaptiveHeroSequencingText := "Personalize the hero offer based on visitor source—switch messaging between 'Launch in Minutes' and 'Automate Your Workflow' to mirror intent."
  const AIFueledUpgradeNudgesText := "Surface contextual AI prompts inside the tool experience that show projected ROI if a user activates premium automation triggers."
  const SmartConversionChecklistText := "Embed a progressive checklist that scores a workspace setup in real time and unlocks templates as milestones are completed."
  const PredictiveLeadGenPopoverText := "Trigger a low-friction modal only when an exit is detected and the AI predicts high fit based on session actions, lowering bounce without harming UX."
  const DynamicWorkflowPreviewText := "Allow visitors to simulate a workflow with sample data, then one-click save the recipe—bridging discovery with instant product value."
  const UsageHeatmapInsightsText := "Expose anonymized usage heatmaps on feature cards so prospects understand real adoption and trust depth."
  const AIConciergeOnboardingText := "A chat-based assistant that watches user progress, detects confusion points, and proactively offers explainer snippets or micro-videos."
  const GamifiedRetentionLoopText := "Reward recurring usage streaks with credits redeemable for premium templates or integrations to reinforce habit formation."
  const ProgrammaticPillarLibraryText := "Generate structured landing pages for every high-intent query using AI-authored introductions and human-reviewed use cases."
  const InteractiveSchemaBuilderText := "Ship a mini-tool that outputs validated JSON-LD for automation recipes, earning backlinks while boosting topical authority."
  const SemanticFAQEngineText := "Leverage AI to mine customer chat logs, surface trending questions, and publish them as expandable FAQ blocks with schema."
  const AutoOptimizeContentDepthText := "Monitor scroll and dwell metrics, then prompt editors when sections underperform so they can inject richer multimedia or micro-demos."

  /** The badge text for each impact level; the match is exhaustive. */
  function ImpactLabel(i: Impact): string
  {
    match i
    case High => "High leverage"
    case Medium => "Momentum builder"
    case Quick => "Quick win"
  }

  /** Each impact level has its own badge text. */
  lemma ImpactLabelInjective(a: Impact, b: Impact)
    ensures ImpactLabel(a) == ImpactLabel(b) <==> a == b
  {
    if a != b {
      assert |ImpactLabel(a)| != |ImpactLabel(b)|;
    }
  }

  // ---------------------------------------------------------------------
  // The index window and its rotation

  /** Rotation wraps with this constant, not with the active pool's length. */
  const RotationModulus: nat := 4

  const InitialWindow: seq<nat> := [0, 1, 2]

  predicate InRange(w: seq<nat>)
  {
    forall k :: 0 <= k < |w| ==> w[k] < RotationModulus
  }

  predicate Distinct(w: seq<nat>)
  {
    forall j, k :: 0 <= j < k < |w| ==> w[j] != w[k]
  }

  /** The shape every reachable window has: three distinct slots of a four-item pool. */
  predicate IsWindow(w: seq<nat>)
  {
    |w| == 3 && InRange(w) && Distinct(w)
  }

  /** The derived list: for each index of the window, in order, the pool
    * entry at that index taken modulo the pool's length. */
  function RecommendationsFor(pool: seq<RecommendationItem>, window: seq<nat>): (r: seq<RecommendationItem>)
    requires |pool| > 0
    ensures |r| == |window|
    ensures forall k :: 0 <= k < |r| ==> r[k] in pool
  {
    seq(|window|, k requires 0 <= k < |window| => pool[window[k] % |pool|])
  }

  /** One press of "Refresh ideas": every index moves on by one, modulo 4. */
  function Rotated(w: seq<nat>): (r: seq<nat>)
    ensures |r| == |w|
    ensures InRange(r)
  {
    seq(|w|, k requires 0 <= k < |w| => (w[k] + 1) % RotationModulus)
  }

  function RotatedTimes(w: seq<nat>, n: nat): (r: seq<nat>)
    ensures |r| == |w|
    ensures n > 0 ==> InRange(r)
  {
    if n == 0 then w else Rotated(RotatedTimes(w, n - 1))
  }

  /** After n rotations an in-range index v has become (v + n) mod 4. */
  lemma {:induction false} RotatedTimesAt(w: seq<nat>, n: nat, k: nat)
    requires k < |w| && w[k] < RotationModulus
    ensures RotatedTimes(w, n)[k] == (w[k] + n) % RotationModulus
  {
    if n > 0 {
      RotatedTimesAt(w, n - 1, k);
    }
  }

  /** Four rotations bring any in-range window back to where it started. */
  lemma RotationPeriod(w: seq<nat>)
    requires InRange(w)
    ensures RotatedTimes(w, RotationModulus) == w
  {
    forall k | 0 <= k < |w|
      ensures RotatedTimes(w, RotationModulus)[k] == w[k]
    {
      RotatedTimesAt(w, RotationModulus, k);
    }
  }

  /** After n rotations from the initial state the window is [n, n+1, n+2] mod 4. */
  lemma RotationFromInitial(n: nat)
    ensures RotatedTimes(InitialWindow, n) == [n % 4, (n + 1) % 4, (n + 2) % 4]
  {
    RotatedTimesAt(InitialWindow, n, 0);
    RotatedTimesAt(InitialWindow, n, 1);
    RotatedTimesAt(InitialWindow, n, 2);
  }

  /** Rotation is injective on [0, 4), so it keeps a window a window. */
  lemma RotatedKeepsWindow(w: seq<nat>)
    requires IsWindow(w)
    ensures IsWindow(Rotated(w))
  {
  }

  lemma {:induction false} RotatedTimesKeepsWindow(w: seq<nat>, n: nat)
    requires IsWindow(w)
    ensures IsWindow(RotatedTimes(w, n))
  {
    if n > 0 {
      RotatedTimesKeepsWindow(w, n - 1);
      RotatedKeepsWindow(RotatedTimes(w, n - 1));
    }
  }

  /** With a four-entry pool the lookup's modulus agrees with the rotation's,
    * and on a window the lookup never wraps: the three recommendations are
    * three different slots of the pool, in window order. */
  lemma WindowPicksDistinctSlots(pool: seq<RecommendationItem>, w: seq<nat>)
    requires |pool| == RotationModulus && IsWindow(w)
    ensures forall k :: 0 <= k < |w| ==> w[k] % |pool| == w[k]
    ensures |RecommendationsFor(pool, w)| == 3
    ensures forall k :: 0 <= k < 3 ==> RecommendationsFor(pool, w)[k] == pool[w[k]]
    ensures forall j, k :: 0 <= j < k < 3 ==> w[j] % |pool| != w[k] % |pool|
  {
  }

  /** The opening view is the first three ideas in order; one rotation shows the last three. */
  lemma InitialAndFirstRotation(pool: seq<RecommendationItem>)
    requires |pool| == RotationModulus
    ensures RecommendationsFor(pool, InitialWindow) == pool[..3]
    ensures RecommendationsFor(pool, Rotated(InitialWindow)) == pool[1..]
  {
    assert Rotated(InitialWindow) == [1, 2, 3];
  }

  /** The rotation's fixed modulus means that, were a pool longer than four,
    * its entries from the fifth on would never be shown after a rotation. */
  lemma RotationIgnoresSlotsBeyondFour(pool: seq<RecommendationItem>, w: seq<nat>, n: nat)
    requires |pool| >= RotationModulus && n > 0
    ensures forall k :: 0 <= k < |w| ==> RecommendationsFor(pool, RotatedTimes(w, n))[k] == pool[RotatedTimes(w, n)[k]]
    ensures forall k :: 0 <= k < |w| ==> RotatedTimes(w, n)[k] < RotationModulus
  {
  }

  // ---------------------------------------------------------------------
  // Persona buttons

  /** Which persona buttons are highlighted, in layout order. */
  function PersonaFlags(persona: PersonaKey): seq<bool>
  {
    seq(|PersonaOrder|, k requires 0 <= k < |PersonaOrder| => PersonaOrder[k] == persona)
  }

  /** Exactly one persona button is highlighted, the one for the active persona. */
  lemma ExactlyOnePersonaActive(persona: PersonaKey)
    ensures CountTrue(PersonaFlags(persona)) == 1
    ensures forall k :: 0 <= k < |PersonaOrder| ==> (PersonaFlags(persona)[k] <==> PersonaOrder[k] == persona)
  {
    var f := PersonaFlags(persona);
    assert f == [persona == Growth, persona == Product, persona == Content];
    assert f[..1][..0] == [] && f[..2][..1] == f[..1] && f[..3] == f;
    assert CountTrue(f[..1]) == (if f[0] then 1 else 0);
    assert CountTrue(f[..2]) == CountTrue(f[..1]) + (if f[1] then 1 else 0);
    assert CountTrue(f) == CountTrue(f[..2]) + (if f[2] then 1 else 0);
  }

  // ---------------------------------------------------------------------
  // The widget's state

  class AIRoadmap {
    const pools: Pools
    var persona: PersonaKey
    var selectedIndexes: seq<nat>

    ghost predicate Valid()
      reads this
    {
      PoolsWellFormed(pools) && IsWindow(selectedIndexes)
    }

    constructor ()
      ensures Valid()
      ensures pools == RecommendationPool()
      ensures persona == Growth && selectedIndexes == InitialWindow
    {
      ShippedPoolsWellFormed();
      pools := RecommendationPool();
      persona := Growth;
      selectedIndexes := InitialWindow;
    }

    /** The list shown for the current state, recomputed from both fields:
      * three distinct slots of the active persona's pool, in window order. */
    function Recommendations(): (r: seq<RecommendationItem>)
      reads this
      requires Valid()
      ensures |r| == 3
      ensures forall k :: 0 <= k < 3 ==> r[k] == PoolOf(pools, persona)[selectedIndexes[k]]
      ensures forall j, k :: 0 <= j < k < 3 ==> selectedIndexes[j] != selectedIndexes[k]
    {
      WindowPicksDistinctSlots(PoolOf(pools, persona), selectedIndexes);
      RecommendationsFor(PoolOf(pools, persona), selectedIndexes)
    }

    /** Switching persona keeps the rotation window: the same slots are read from the new pool. */
    method SetPersona(key: PersonaKey)
      requires Valid()
      modifies this
      ensures Valid()
      ensures persona == key && selectedIndexes == old(selectedIndexes)
      ensures Recommendations() == RecommendationsFor(PoolOf(pools, key), old(selectedIndexes))
    {
      persona := key;
    }

    /** "Refresh ideas": the persona stays, every index advances by one modulo 4. */
    method RotateIdeas()
      requires Valid()
      modifies this
      ensures Valid()
      ensures persona == old(persona) && selectedIndexes == Rotated(old(selectedIndexes))
    {
      RotatedKeepsWindow(selectedIndexes);
      selectedIndexes := Rotated(selectedIndexes);
    }
  }
}
