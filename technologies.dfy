/**
 * The technologies page: the list narrowed by the selected category
 * ('all' shows the list as it is) and the card colours.
 */
module Technologies {
  import opened Seqs
  import opened Catalogue

  /** A technology card; applications, examples and icon are left out. */
  datatype Technology = Technology(id: string, name: string, category: string, description: string, color: string)

  /** `filteredTechnologies`: the list itself for 'all', otherwise the technologies of that category. */
  function FilteredTechnologies(technologies: seq<Technology>, category: string): (r: seq<Technology>)
    ensures category == "all" ==> r == technologies
    ensures category != "all" ==> forall k :: 0 <= k < |r| ==> r[k] in technologies && r[k].category == category
    ensures category != "all" ==> forall i :: 0 <= i < |technologies| && technologies[i].category == category ==>
              technologies[i] in r
  {
    if category == "all" then technologies
    else Filter(technologies, (t: Technology) => t.category == category)
  }

  /** Any selection keeps the list's order. */
  lemma FilteredInOrder(technologies: seq<Technology>, category: string)
    ensures IsSubsequence(FilteredTechnologies(technologies, category), technologies)
  {
    if category == "all" {
      FilterKeepsAll(technologies, (t: Technology) => true);
      FilterIsSubsequence(technologies, (t: Technology) => true);
    } else {
      FilterIsSubsequence(technologies, (t: Technology) => t.category == category);
    }
  }

  /** A category no technology has gives the empty list, which shows the empty-state message. */
  lemma UnknownCategoryIsEmpty(technologies: seq<Technology>, category: string)
    requires category != "all"
    requires forall i :: 0 <= i < |technologies| ==> technologies[i].category != category
    ensures FilteredTechnologies(technologies, category) == []
  {
    FilterKeepsNone(technologies, (t: Technology) => t.category == category);
  }

  /** `getColorClasses`: this page's map has no yellow. */
  const TechnologyColors: map<string, string> := map[
    "blue" := TailwindClasses("blue"), "green" := TailwindClasses("green"),
    "purple" := TailwindClasses("purple"), "orange" := TailwindClasses("orange"),
    "teal" := TailwindClasses("teal"), "indigo" := TailwindClasses("indigo"),
    "pink" := TailwindClasses("pink"), "red" := TailwindClasses("red")]

  function ColorClasses(color: string): (classes: string)
    ensures color in TechnologyColors ==> classes == TailwindClasses(color)
    ensures color !in TechnologyColors ==> classes == GrayClasses
  {
    ClassesFor(TechnologyColors, color)
  }

  /** Unmapped colours, yellow among them, fall back to gray. */
  lemma YellowIsGray()
    ensures "yellow" !in TechnologyColors && ColorClasses("yellow") == GrayClasses
  {
  }
}
