/**
 * The educational resources page: the list narrowed by the selected
 * category ('all' selects every one) and a case-insensitive search term,
 * the card colours, and the counts by file type.
 */
module Resources {
  import opened Seqs
  import opened Catalogue

  /** A catalogue entry; `kind` is the entry's `type`. Links, sizes and icons are left out. */
  datatype Resource = Resource(id: string, title: string, kind: string, description: string,
                               category: string, tags: seq<string>, color: string)

  /** `selectedCategory === 'all' || resource.category === selectedCategory`. */
  predicate MatchesCategory(r: Resource, category: string)
  {
    category == "all" || r.category == category
  }

  /** The lowered term occurs in the lowered title, description, or one of the lowered tags. */
  predicate MatchesSearch(r: Resource, term: string)
  {
    var t := ToLower(term);
    Contains(ToLower(r.title), t) || Contains(ToLower(r.description), t)
    || exists k :: 0 <= k < |r.tags| && Contains(ToLower(r.tags[k]), t)
  }

  predicate Shown(category: string, term: string, r: Resource)
  {
    MatchesCategory(r, category) && MatchesSearch(r, term)
  }

  /** `filteredResources`. */
  function FilteredResources(resources: seq<Resource>, category: string, term: string): (r: seq<Resource>)
    ensures |r| <= |resources|
    ensures forall k :: 0 <= k < |r| ==>
              r[k] in resources && (category != "all" ==> r[k].category == category) && MatchesSearch(r[k], term)
    ensures forall i :: 0 <= i < |resources| && MatchesCategory(resources[i], category) && MatchesSearch(resources[i], term) ==>
              resources[i] in r
  {
    Filter(resources, (x: Resource) => Shown(category, term, x))
  }

  /** The filter keeps the catalogue's order. */
  lemma FilteredInOrder(resources: seq<Resource>, category: string, term: string)
    ensures IsSubsequence(FilteredResources(resources, category, term), resources)
  {
    FilterIsSubsequence(resources, (x: Resource) => Shown(category, term, x));
  }

  /** With 'all' and an empty search box the whole catalogue is shown. */
  lemma NoFilterShowsAll(resources: seq<Resource>)
    ensures FilteredResources(resources, "all", "") == resources
  {
    forall i | 0 <= i < |resources| ensures Shown("all", "", resources[i]) {
      ContainsEmptyAndSelf(ToLower(resources[i].title));
    }
    FilterKeepsAll(resources, (x: Resource) => Shown("all", "", x));
  }

  /** The search ignores the case of the term. */
  lemma SearchIgnoresTermCase(r: Resource, term: string)
    ensures MatchesSearch(r, ToLower(term)) == MatchesSearch(r, term)
  {
    ToLowerIdempotent(term);
  }

  /** `getColorClasses`: the page's map includes yellow. */
  const ResourceColors: map<string, string> := map[
    "blue" := TailwindClasses("blue"), "green" := TailwindClasses("green"),
    "purple" := TailwindClasses("purple"), "orange" := TailwindClasses("orange"),
    "red" := TailwindClasses("red"), "teal" := TailwindClasses("teal"),
    "indigo" := TailwindClasses("indigo"), "pink" := TailwindClasses("pink"),
    "yellow" := TailwindClasses("yellow")]

  function ColorClasses(color: string): (classes: string)
    ensures color in ResourceColors ==> classes == TailwindClasses(color)
    ensures color !in ResourceColors ==> classes == GrayClasses
  {
    ClassesFor(ResourceColors, color)
  }

  /** The colours with their own classes; every other colour, gray among them, falls back to gray. */
  lemma ColorClassesKnown(color: string)
    ensures color in ResourceColors <==>
      color in {"blue", "green", "purple", "orange", "red", "teal", "indigo", "pink", "yellow"}
    ensures color == "gray" ==> ColorClasses(color) == GrayClasses
  {
  }

  /** `resources.filter(r => r.type === kind).length`. */
  function CountOfType(resources: seq<Resource>, kind: string): (n: nat)
    ensures n <= |resources|
  {
    |Filter(resources, (x: Resource) => x.kind == kind)|
  }

  /** The types of the catalogue, in order. */
  function Kinds(resources: seq<Resource>): (ks: seq<string>)
    ensures |ks| == |resources| && forall i :: 0 <= i < |ks| ==> ks[i] == resources[i].kind
  {
    if resources == [] then [] else [resources[0].kind] + Kinds(resources[1..])
  }

  /** Each count is the number of entries whose type is exactly that one. */
  lemma {:induction false} CountOfTypeIsMultiplicity(resources: seq<Resource>, kind: string)
    ensures CountOfType(resources, kind) == multiset(Kinds(resources))[kind]
  {
    if resources != [] {
      CountOfTypeIsMultiplicity(resources[1..], kind);
      assert Kinds(resources) == [resources[0].kind] + Kinds(resources[1..]);
    }
  }

  /** The four counters of the page (PDF, Video, CSV, Web App) never exceed the catalogue together. */
  lemma {:induction false} FourCountsBound(resources: seq<Resource>)
    ensures CountOfType(resources, "PDF") + CountOfType(resources, "Video")
            + CountOfType(resources, "CSV") + CountOfType(resources, "Web App") <= |resources|
  {
    if resources != [] {
      FourCountsBound(resources[1..]);
    }
  }
}
