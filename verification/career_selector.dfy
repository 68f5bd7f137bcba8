/** The career picker screen (src/components/CareerSelector.tsx): a fixed
    catalog of six careers and a single-selection state that is forwarded to
    the application shell when the user starts the journey. */
module CareerSelector {
  import opened Wrappers

  /** A career card. The icon component is presentational and not modelled. */
  datatype Career = Career(
    id: string,
    title: string,
    description: string,
    gradient: string,
    skills: seq<string>)

  /** No two careers of `cs` share an id. */
  predicate DistinctIds(cs: seq<Career>)
  {
    forall i, j :: 0 <= i < j < |cs| ==> cs[i].id != cs[j].id
  }

  /** The compiled-in career catalog, in declaration order. */
  function Catalog(): (cs: seq<Career>)
    ensures |cs| == 6
    ensures DistinctIds(cs)
    ensures forall i :: 0 <= i < |cs| ==> |cs[i].skills| == 5
  {
    [ Career("software-engineering", "Software Engineering",
             "Master the art of code and build the digital future", "bg-gradient-cyber",
             ["JavaScript", "React", "Node.js", "Databases", "DevOps"]),
      Career("data-science", "Data Science",
             "Unlock insights from data and predict the future", "bg-gradient-neon",
             ["Python", "Machine Learning", "Statistics", "SQL", "Visualization"]),
      Career("ui-ux-design", "UI/UX Design",
             "Craft beautiful interfaces and user experiences", "bg-gradient-electric",
             ["Figma", "User Research", "Prototyping", "Design Systems", "Accessibility"]),
      Career("product-management", "Product Management",
             "Lead products from vision to market success", "bg-gradient-cyber",
             ["Strategy", "Analytics", "User Research", "Roadmapping", "Leadership"]),
      Career("cybersecurity", "Cybersecurity",
             "Protect the digital world from cyber threats", "bg-gradient-neon",
             ["Penetration Testing", "Security Auditing", "Incident Response", "Cryptography",
              "Risk Assessment"]),
      Career("ai-ml-engineering", "AI/ML Engineering",
             "Build intelligent systems that learn and adapt", "bg-gradient-electric",
             ["Deep Learning", "Neural Networks", "TensorFlow", "Computer Vision", "NLP"]) ]
  }

  /** The picker's only state: the currently highlighted career, if any. */
  datatype Selector = Selector(selected: Option<Career>)

  /** The picker mounts with nothing selected. */
  function InitialSelector(): (s: Selector)
    ensures s.selected.None?
  {
    Selector(None)
  }

  /** Clicking a card selects that career, replacing any earlier selection. */
  function ClickCareer(s: Selector, c: Career): (r: Selector)
    ensures r.selected == Some(c)
  {
    Selector(Some(c))
  }

  /** Clicking the cards `cs` one after another, first to last. */
  function ClickAll(s: Selector, cs: seq<Career>): Selector
    decreases |cs|
  {
    if |cs| == 0 then s else ClickAll(ClickCareer(s, cs[0]), cs[1..])
  }

  /** Only the last click of a sequence of clicks matters. */
  lemma {:induction false} LastClickWins(s: Selector, cs: seq<Career>)
    requires |cs| > 0
    ensures ClickAll(s, cs).selected == Some(cs[|cs| - 1])
    decreases |cs|
  {
    if |cs| > 1 {
      LastClickWins(ClickCareer(s, cs[0]), cs[1..]);
    }
  }

  /** The career handed to the application shell when "Begin ... Journey" is
      pressed; `None` means the handler does nothing. */
  function StartJourney(s: Selector): (forwarded: Option<Career>)
    ensures s.selected.None? ==> forwarded.None?
    ensures s.selected.Some? ==> forwarded.Some? && forwarded.value == s.selected.value
  {
    if s.selected.Some? then Some(s.selected.value) else None
  }

  /** The start button is rendered exactly when a career is selected. */
  predicate ShowsStartButton(s: Selector)
  {
    s.selected.Some?
  }

  /** The start button is on screen exactly when pressing it forwards a career. */
  lemma StartButtonForwardsIffShown(s: Selector)
    ensures ShowsStartButton(s) <==> StartJourney(s).Some?
  {
  }

  /** A card is drawn highlighted when its id equals the selected career's id. */
  predicate IsMarkedSelected(s: Selector, c: Career)
  {
    s.selected.Some? && s.selected.value.id == c.id
  }

  /** Because catalog ids are distinct, at most one catalog card is
      highlighted, whatever the selection. */
  lemma AtMostOneCardMarked(s: Selector, i: int, j: int)
    requires 0 <= i < |Catalog()| && 0 <= j < |Catalog()|
    ensures IsMarkedSelected(s, Catalog()[i]) && IsMarkedSelected(s, Catalog()[j]) ==> i == j
  {
  }

  /** Selecting a catalog career highlights that card and no other. */
  lemma ClickMarksExactlyThatCard(s: Selector, k: int, i: int)
    requires 0 <= k < |Catalog()| && 0 <= i < |Catalog()|
    ensures IsMarkedSelected(ClickCareer(s, Catalog()[k]), Catalog()[i]) <==> i == k
  {
  }

  /** The skill chips on a card: `skills.slice(0, 3)`, which keeps the whole
      list when it has fewer than three entries. */
  function SkillPreview(c: Career): (shown: seq<string>)
    ensures |shown| == if |c.skills| < 3 then |c.skills| else 3
    ensures shown <= c.skills
  {
    if |c.skills| <= 3 then c.skills else c.skills[..3]
  }
}
