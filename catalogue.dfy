/** The catalogue search shared by the sales page (app/ventes/page.tsx) and
    the inventory page (app/inventaire/page.tsx), and the category list the
    inventory form offers. `lower` stands for `String.prototype.toLowerCase`. */
module Catalogue {
  import opened Seqs
  import opened Records

  /** `art.nom.toLowerCase().includes(q) || art.categorie.toLowerCase().includes(q)`
      with `q = search.toLowerCase()`. */
  predicate MatchesSearch(lower: string -> string, art: Article, search: string) {
    Contains(lower(art.nom), lower(search)) || Contains(lower(art.categorie), lower(search))
  }

  /** `articles.filter(art => MatchesSearch(art))`. */
  function FilterArticles(lower: string -> string, articles: seq<Article>, search: string): seq<Article> {
    Filter(articles, art => MatchesSearch(lower, art, search))
  }

  /** The search keeps exactly the articles whose lowercased name or
      category contains the lowercased search text at some position, and
      keeps them in catalogue order. */
  lemma FilterArticlesExactly(lower: string -> string, articles: seq<Article>, search: string)
    ensures forall a :: a in FilterArticles(lower, articles, search) <==>
              a in articles &&
              ((exists i :: OccursAt(lower(a.nom), lower(search), i)) ||
               (exists i :: OccursAt(lower(a.categorie), lower(search), i)))
    ensures IsSubsequence(FilterArticles(lower, articles, search), articles)
  {
    var p := art => MatchesSearch(lower, art, search);
    FilterMembers(articles, p);
    FilterIsSubsequence(articles, p);
    forall a | a in articles
      ensures MatchesSearch(lower, a, search) <==>
              ((exists i :: OccursAt(lower(a.nom), lower(search), i)) ||
               (exists i :: OccursAt(lower(a.categorie), lower(search), i)))
    {
      ContainsAt(lower(a.nom), lower(search));
      ContainsAt(lower(a.categorie), lower(search));
    }
  }

  /** An empty search keeps the whole catalogue. */
  lemma EmptySearchKeepsAll(lower: string -> string, articles: seq<Article>)
    requires lower("") == ""
    ensures FilterArticles(lower, articles, "") == articles
  {
    forall i | 0 <= i < |articles|
      ensures MatchesSearch(lower, articles[i], "")
    {
      ContainsEmpty(lower(articles[i].nom));
    }
    FilterAll(articles, art => MatchesSearch(lower, art, ""));
  }

  /** The category of every article, in catalogue order. */
  function CategoriesOf(articles: seq<Article>): (r: seq<string>)
    ensures |r| == |articles|
  {
    seq(|articles|, i requires 0 <= i < |articles| => articles[i].categorie)
  }

  /** `Array.from(new Set(articles.map(a => a.categorie)))`. */
  function CategoriesExistantes(articles: seq<Article>): seq<string> {
    Distinct(CategoriesOf(articles))
  }

  /** The category list has no repeats, offers every article's category and
      nothing else, and lists categories in order of first appearance. */
  lemma CategoriesExistantesSpec(articles: seq<Article>)
    ensures var cs := CategoriesExistantes(articles);
            NoDuplicates(cs) &&
            (forall i :: 0 <= i < |articles| ==> articles[i].categorie in cs) &&
            (forall c :: c in cs ==> exists i :: 0 <= i < |articles| && articles[i].categorie == c)
    ensures var cs := CategoriesExistantes(articles);
            forall i, j :: 0 <= i < j < |cs| ==>
              FirstIndex(CategoriesOf(articles), cs[i]) < FirstIndex(CategoriesOf(articles), cs[j])
  {
    var cs := CategoriesExistantes(articles);
    var all := CategoriesOf(articles);
    assert forall i :: 0 <= i < |articles| ==> all[i] == articles[i].categorie;
    forall c | c in cs
      ensures exists i :: 0 <= i < |articles| && articles[i].categorie == c
    {
      var k :| 0 <= k < |cs| && cs[k] == c;
      assert c in all;
      var i :| 0 <= i < |all| && all[i] == c;
    }
    forall i, j | 0 <= i < j < |cs|
      ensures FirstIndex(all, cs[i]) < FirstIndex(all, cs[j])
    {
      DistinctFirstOccurrenceOrder(all, i, j);
    }
  }
}
