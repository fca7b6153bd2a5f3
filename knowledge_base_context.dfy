/** The knowledge base (`KnowledgeBaseContext`): four collections of
    content items (articles, guides, regulations, templates) keyed by id,
    the search over them and the related-content lookup. */
module KnowledgeBaseContext {
  import opened Common
  import opened Text
  import opened Dicts

  /** A content item; the optional fields may be missing from a record. */
  datatype KbItem = KbItem(
    id: string,
    title: Option<string>,
    description: Option<string>,
    content: Option<string>,
    itemType: Option<string>,
    industries: Option<seq<string>>,
    controlId: Option<string>,
    topics: Option<seq<string>>,
    createdAt: string,
    updatedAt: string)

  /** The search filters; an empty string is a filter not given. */
  datatype Filters = Filters(itemType: string, industry: string, controlId: string)

  /** The four collections. */
  datatype Collection = Articles | Guides | Regulations | Templates

  datatype SearchResults = SearchResults(
    articles: seq<KbItem>,
    guides: seq<KbItem>,
    regulations: seq<KbItem>,
    templates: seq<KbItem>)

  datatype RelatedContent = RelatedContent(articles: seq<KbItem>, guides: seq<KbItem>, templates: seq<KbItem>)

  /** `field?.toLowerCase().includes(query)`: a missing field never
      matches. */
  predicate FieldContains(field: Option<string>, query: string)
  {
    field.Some? && Contains(Lower(field.value), query)
  }

  /** `matchesSearch`: the query occurs in the title, description or
      content, and every given filter holds. */
  predicate MatchesSearch(item: KbItem, query: string, filters: Filters)
  {
    var matchesQuery := FieldContains(item.title, query) || FieldContains(item.description, query) ||
                        FieldContains(item.content, query);
    if !matchesQuery then false
    else if filters.itemType != "" && item.itemType != Some(filters.itemType) then false
    else if filters.industry != "" && !(item.industries.Some? && filters.industry in item.industries.value) then false
    else if filters.controlId != "" && item.controlId != Some(filters.controlId) then false
    else true
  }

  /** An item matches iff one of its texts contains the query and it
      meets each given filter; a filter not given excludes nothing. */
  lemma MatchesSearchIff(item: KbItem, query: string, filters: Filters)
    ensures MatchesSearch(item, query, filters) <==>
      (FieldContains(item.title, query) || FieldContains(item.description, query) || FieldContains(item.content, query)) &&
      (filters.itemType == "" || item.itemType == Some(filters.itemType)) &&
      (filters.industry == "" || (item.industries.Some? && filters.industry in item.industries.value)) &&
      (filters.controlId == "" || item.controlId == Some(filters.controlId))
  {
  }

  /** Adding a filter only narrows the result. */
  lemma FiltersNarrow(item: KbItem, query: string, filters: Filters)
    requires MatchesSearch(item, query, filters)
    ensures MatchesSearch(item, query, Filters("", "", ""))
    ensures MatchesSearch(item, query, filters.(itemType := ""))
    ensures MatchesSearch(item, query, filters.(industry := ""))
    ensures MatchesSearch(item, query, filters.(controlId := ""))
  {
  }

  /** With an empty query and no filter, exactly the items having a
      title, description or content are found. */
  lemma EmptyQueryMatchesTextItems(item: KbItem)
    ensures MatchesSearch(item, "", Filters("", "", "")) <==>
      item.title.Some? || item.description.Some? || item.content.Some?
  {
    if item.title.Some? { ContainsTrivial(Lower(item.title.value)); }
    if item.description.Some? { ContainsTrivial(Lower(item.description.value)); }
    if item.content.Some? { ContainsTrivial(Lower(item.content.value)); }
  }

  /** One collection's search result: its values that match, in order. */
  function SearchIn(items: Dict<string, KbItem>, query: string, filters: Filters): (r: seq<KbItem>)
    requires items.Valid()
    ensures IsSubseq(r, items.Values())
    ensures forall x :: x in r <==> x in items.Values() && MatchesSearch(x, query, filters)
  {
    var p := (x: KbItem) => MatchesSearch(x, query, filters);
    FilterIsSubseq(items.Values(), p);
    forall x
      ensures x in Filter(items.Values(), p) <==> x in items.Values() && p(x)
    {
      FilterMember(items.Values(), p, x);
    }
    Filter(items.Values(), p)
  }

  /** `topics?.some(t => other?.includes(t))`. */
  predicate SharesAny(xs: Option<seq<string>>, ys: Option<seq<string>>)
  {
    xs.Some? && ys.Some? && exists i :: 0 <= i < |xs.value| && xs.value[i] in ys.value
  }

  /** The related items of one collection: the values other than the item
      itself that satisfy the relation, in order. */
  function RelatedIn(items: Dict<string, KbItem>, itemId: string, related: KbItem -> bool): (r: seq<KbItem>)
    requires items.Valid()
    ensures IsSubseq(r, items.Values())
    ensures forall x :: x in r <==> x in items.Values() && x.id != itemId && related(x)
  {
    var p := (x: KbItem) => x.id != itemId && related(x);
    FilterIsSubseq(items.Values(), p);
    forall x
      ensures x in Filter(items.Values(), p) <==> x in items.Values() && p(x)
    {
      FilterMember(items.Values(), p, x);
    }
    Filter(items.Values(), p)
  }

  /** The knowledge base. */
  class KnowledgeBase {
    var articles: Dict<string, KbItem>
    var guides: Dict<string, KbItem>
    var regulations: Dict<string, KbItem>
    var templates: Dict<string, KbItem>

    ghost predicate Valid()
      reads this
    {
      articles.Valid() && guides.Valid() && regulations.Valid() && templates.Valid()
    }

    /** The provider with the stored content. */
    constructor(articles: Dict<string, KbItem>, guides: Dict<string, KbItem>,
                regulations: Dict<string, KbItem>, templates: Dict<string, KbItem>)
      requires articles.Valid() && guides.Valid() && regulations.Valid() && templates.Valid()
      ensures Valid()
      ensures this.articles == articles && this.guides == guides
      ensures this.regulations == regulations && this.templates == templates
    {
      this.articles := articles;
      this.guides := guides;
      this.regulations := regulations;
      this.templates := templates;
    }

    /** A collection's contents. */
    function Items(c: Collection): (d: Dict<string, KbItem>)
      reads this
    {
      match c
      case Articles => articles
      case Guides => guides
      case Regulations => regulations
      case Templates => templates
    }

    /** `addArticle`, `addGuide`, `addRegulation`, `addTemplate`: the item
        stored under '<kind>_<now>' with that id and both timestamps set;
        the other collections are unchanged. */
    method Add(c: Collection, item: KbItem, now: nat, timestamp: string) returns (id: string)
      requires Valid()
      modifies this
      ensures Valid()
      ensures id == (match c
                     case Articles => "article_"
                     case Guides => "guide_"
                     case Regulations => "regulation_"
                     case Templates => "template_") + NatToString(now)
      ensures Items(c) == old(Items(c)).Put(id, item.(id := id, createdAt := timestamp, updatedAt := timestamp))
      ensures forall other :: other != c ==> Items(other) == old(Items(other))
    {
      var prefix := match c
                    case Articles => "article_"
                    case Guides => "guide_"
                    case Regulations => "regulation_"
                    case Templates => "template_";
      id := prefix + NatToString(now);
      var stored := item.(id := id, createdAt := timestamp, updatedAt := timestamp);
      match c {
        case Articles =>
          PutValid(articles, id, stored);
          articles := articles.Put(id, stored);
        case Guides =>
          PutValid(guides, id, stored);
          guides := guides.Put(id, stored);
        case Regulations =>
          PutValid(regulations, id, stored);
          regulations := regulations.Put(id, stored);
        case Templates =>
          PutValid(templates, id, stored);
          templates := templates.Put(id, stored);
      }
    }

    /** `searchKnowledgeBase`: each collection filtered by the lower-cased
        query and the filters. */
    function Search(query: string, filters: Filters): (r: SearchResults)
      requires Valid()
      reads this
      ensures IsSubseq(r.articles, articles.Values()) && IsSubseq(r.guides, guides.Values())
      ensures IsSubseq(r.regulations, regulations.Values()) && IsSubseq(r.templates, templates.Values())
      ensures forall x :: x in r.articles <==> x in articles.Values() && MatchesSearch(x, Lower(query), filters)
      ensures forall x :: x in r.guides <==> x in guides.Values() && MatchesSearch(x, Lower(query), filters)
      ensures forall x :: x in r.regulations <==> x in regulations.Values() && MatchesSearch(x, Lower(query), filters)
      ensures forall x :: x in r.templates <==> x in templates.Values() && MatchesSearch(x, Lower(query), filters)
    {
      var normalized := Lower(query);
      SearchResults(
        SearchIn(articles, normalized, filters),
        SearchIn(guides, normalized, filters),
        SearchIn(regulations, normalized, filters),
        SearchIn(templates, normalized, filters))
    }

    /** The item an id and a kind name select, if any. */
    function Lookup(itemId: string, itemType: string): (r: Option<KbItem>)
      reads this
      ensures r.Some? <==>
        (itemType == "article" && itemId in articles.vals) || (itemType == "guide" && itemId in guides.vals) ||
        (itemType == "regulation" && itemId in regulations.vals) || (itemType == "template" && itemId in templates.vals)
    {
      if itemType == "article" then articles.Get(itemId)
      else if itemType == "guide" then guides.Get(itemId)
      else if itemType == "regulation" then regulations.Get(itemId)
      else if itemType == "template" then templates.Get(itemId)
      else None
    }

    /** `getRelatedContent`: null for an unknown item; otherwise, never the
        item itself, the articles with its control or a shared topic, the
        guides with its control or a shared industry, and the templates
        with its control. */
    function GetRelatedContent(itemId: string, itemType: string): (r: Option<RelatedContent>)
      requires Valid()
      reads this
      ensures r.None? <==> Lookup(itemId, itemType).None?
      ensures r.Some? ==>
        var item := Lookup(itemId, itemType).value;
        (forall a :: a in r.value.articles <==>
           a in articles.Values() && a.id != itemId && (a.controlId == item.controlId || SharesAny(a.topics, item.topics))) &&
        (forall g :: g in r.value.guides <==>
           g in guides.Values() && g.id != itemId && (g.controlId == item.controlId || SharesAny(g.industries, item.industries))) &&
        (forall t :: t in r.value.templates <==>
           t in templates.Values() && t.id != itemId && t.controlId == item.controlId)
      ensures r.Some? ==>
        IsSubseq(r.value.articles, articles.Values()) && IsSubseq(r.value.guides, guides.Values()) &&
        IsSubseq(r.value.templates, templates.Values())
    {
      var found := Lookup(itemId, itemType);
      if found.None? then None
      else
        var item := found.value;
        Some(RelatedContent(
          RelatedIn(articles, itemId, (a: KbItem) => a.controlId == item.controlId || SharesAny(a.topics, item.topics)),
          RelatedIn(guides, itemId, (g: KbItem) => g.controlId == item.controlId || SharesAny(g.industries, item.industries)),
          RelatedIn(templates, itemId, (t: KbItem) => t.controlId == item.controlId)))
    }
  }
}
