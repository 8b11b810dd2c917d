/** app/page.tsx: the dashboard's `loadData`, its quick-add list and its
    list of the latest sales. */
module Dashboard {
  import opened Seqs
  import opened Records
  import opened Tally
  import opened Catalogue
  import Db

  function ArticleCategorie(a: Article): string { a.categorie }
  function ArticleStock(a: Article): int { a.stock }
  function LineNom(l: CartLine): string { l.art.nom }
  function LineQte(l: CartLine): int { l.qte }
  function VenteTotal(v: Vente): int { v.total }

  /** Every line of every sale, sale by sale. */
  function AllLines(ventes: seq<Vente>): seq<CartLine> {
    if ventes == [] then [] else AllLines(ventes[..|ventes| - 1]) + ventes[|ventes| - 1].articles
  }

  lemma AllLinesSnoc(ventes: seq<Vente>, v: Vente)
    ensures AllLines(ventes + [v]) == AllLines(ventes) + v.articles
  {
    assert (ventes + [v])[..|ventes|] == ventes;
  }

  // ---------------------------------------------------------------------
  // `catStock`
  // ---------------------------------------------------------------------

  /** `catStock` as `Object.entries` lists it. */
  function CategoryStock(arts: seq<Article>): seq<Entry> {
    Count(PairsOf(arts, ArticleCategorie, ArticleStock))
  }

  /** `currentArticles.forEach(art => { catStock[art.categorie] = (catStock[art.categorie] || 0) + art.stock; })`. */
  method BuildCategoryStock(arts: seq<Article>) returns (catStock: seq<Entry>)
    ensures catStock == CategoryStock(arts)
  {
    catStock := [];
    for i := 0 to |arts|
      invariant catStock == Count(PairsOf(arts[..i], ArticleCategorie, ArticleStock))
    {
      assert arts[..i + 1] == arts[..i] + [arts[i]];
      PairsOfSnoc(arts[..i], arts[i], ArticleCategorie, ArticleStock);
      CountSnoc(PairsOf(arts[..i], ArticleCategorie, ArticleStock), Entry(arts[i].categorie, arts[i].stock));
      catStock := Bump(catStock, arts[i].categorie, arts[i].stock);
    }
    assert arts[..|arts|] == arts;
  }

  /** `catStock` has one entry per category, in the order the categories
      first appear (the same list as the inventory's category choices), each
      holding the total stock of that category's articles; together the
      entries hold the whole stock. */
  lemma CategoryStockSpec(arts: seq<Article>)
    ensures Names(CategoryStock(arts)) == CategoriesExistantes(arts)
    ensures forall i :: 0 <= i < |CategoryStock(arts)| ==>
              CategoryStock(arts)[i].qty == SumOf(arts, Selected(ArticleCategorie, ArticleStock, CategoryStock(arts)[i].name))
    ensures SumOf(CategoryStock(arts), EntryQty) == SumOf(arts, ArticleStock)
  {
    var ps := PairsOf(arts, ArticleCategorie, ArticleStock);
    CountSpec(ps);
    PairsOfNames(arts, ArticleCategorie, ArticleStock);
    assert Names(ps) == CategoriesOf(arts);
    forall i | 0 <= i < |Count(ps)|
      ensures Count(ps)[i].qty == SumOf(arts, Selected(ArticleCategorie, ArticleStock, Count(ps)[i].name))
    {
      PairsOfQty(arts, ArticleCategorie, ArticleStock, Count(ps)[i].name);
    }
    CountKeepsSum(ps);
    PairsOfQty(arts, ArticleCategorie, ArticleStock, "");
  }

  // ---------------------------------------------------------------------
  // `salesByProduct` and `sortedTop`
  // ---------------------------------------------------------------------

  /** `salesByProduct` as `Object.entries` lists it. */
  function SalesByProduct(ventes: seq<Vente>): seq<Entry> {
    Count(PairsOf(AllLines(ventes), LineNom, LineQte))
  }

  /** The nested `forEach` over the sales and their lines. */
  method BuildSalesByProduct(ventes: seq<Vente>) returns (sales: seq<Entry>)
    ensures sales == SalesByProduct(ventes)
  {
    sales := [];
    for i := 0 to |ventes|
      invariant sales == Count(PairsOf(AllLines(ventes[..i]), LineNom, LineQte))
    {
      var items := ventes[i].articles;
      assert AllLines(ventes[..i]) + items[..0] == AllLines(ventes[..i]);
      for j := 0 to |items|
        invariant sales == Count(PairsOf(AllLines(ventes[..i]) + items[..j], LineNom, LineQte))
      {
        var done := AllLines(ventes[..i]) + items[..j];
        assert AllLines(ventes[..i]) + items[..j + 1] == done + [items[j]];
        PairsOfSnoc(done, items[j], LineNom, LineQte);
        CountSnoc(PairsOf(done, LineNom, LineQte), Entry(items[j].art.nom, items[j].qte));
        sales := Bump(sales, items[j].art.nom, items[j].qte);
      }
      assert ventes[..i + 1] == ventes[..i] + [ventes[i]];
      assert items[..|items|] == items;
      AllLinesSnoc(ventes[..i], ventes[i]);
    }
    assert ventes[..|ventes|] == ventes;
  }

  /** The names sold, in order of first sale. */
  function LineNames(lines: seq<CartLine>): (r: seq<string>)
    ensures |r| == |lines|
  {
    seq(|lines|, i requires 0 <= i < |lines| => lines[i].art.nom)
  }

  /** `salesByProduct` holds each product name sold once, in order of first
      sale, with the sum of `qte` over every line of that name in every
      sale. */
  lemma SalesByProductSpec(ventes: seq<Vente>)
    ensures Names(SalesByProduct(ventes)) == Distinct(LineNames(AllLines(ventes)))
    ensures forall i :: 0 <= i < |SalesByProduct(ventes)| ==>
              SalesByProduct(ventes)[i].qty == SumOf(AllLines(ventes), Selected(LineNom, LineQte, SalesByProduct(ventes)[i].name))
  {
    var ps := PairsOf(AllLines(ventes), LineNom, LineQte);
    CountSpec(ps);
    PairsOfNames(AllLines(ventes), LineNom, LineQte);
    assert Names(ps) == LineNames(AllLines(ventes));
    forall i | 0 <= i < |Count(ps)|
      ensures Count(ps)[i].qty == SumOf(AllLines(ventes), Selected(LineNom, LineQte, Count(ps)[i].name))
    {
      PairsOfQty(AllLines(ventes), LineNom, LineQte, Count(ps)[i].name);
    }
  }

  /** `sortedTop`. */
  function TopProducts(ventes: seq<Vente>): seq<Entry> {
    TopFive(SalesByProduct(ventes))
  }

  /** The best sellers: at most five entries, distinct names, by
      non-increasing quantity, each quantity that name's aggregate, each name
      one that was sold, and no product left out sold more than one shown. */
  lemma TopProductsSpec(ventes: seq<Vente>)
    ensures var top := TopProducts(ventes);
            |top| == Min(5, |SalesByProduct(ventes)|) &&
            NonIncreasing(top) && NoDuplicates(Names(top)) &&
            (forall e :: e in top ==>
               e.name in LineNames(AllLines(ventes)) &&
               e.qty == SumOf(AllLines(ventes), Selected(LineNom, LineQte, e.name))) &&
            (forall e, k :: e in SalesByProduct(ventes) && e !in top && 0 <= k < |top| ==> e.qty <= top[k].qty)
  {
    var t := SalesByProduct(ventes);
    SalesByProductSpec(ventes);
    CountUnique(PairsOf(AllLines(ventes), LineNom, LineQte));
    TopFiveSpec(t);
    forall e | e in TopFive(t)
      ensures e.name in LineNames(AllLines(ventes))
      ensures e.qty == SumOf(AllLines(ventes), Selected(LineNom, LineQte, e.name))
    {
      var m :| 0 <= m < |t| && t[m] == e;
      assert Names(t)[m] == e.name;
      assert Names(t)[m] in Distinct(LineNames(AllLines(ventes)));
    }
  }

  // ---------------------------------------------------------------------
  // The four figures, the quick-add list and the latest sales
  // ---------------------------------------------------------------------

  datatype Stats = Stats(totalArticles: int, lowStock: int, caTotal: int, nbVentes: int)

  predicate IsLowStock(a: Article) { a.stock <= 10 }

  function LowStockArticles(arts: seq<Article>): seq<Article> {
    Filter(arts, IsLowStock)
  }

  /** `setStats({ totalArticles, lowStock: low, caTotal: totalCA, nbVentes })`. */
  function ComputeStats(arts: seq<Article>, ventes: seq<Vente>): Stats {
    Stats(|arts|, |LowStockArticles(arts)|, SumOf(ventes, VenteTotal), |ventes|)
  }

  /** The stock alert counts exactly the articles with at most ten units,
      whatever sales there are. */
  lemma LowStockSpec(arts: seq<Article>, ventes: seq<Vente>)
    ensures forall a :: a in LowStockArticles(arts) <==> a in arts && a.stock <= 10
    ensures IsSubsequence(LowStockArticles(arts), arts)
    ensures ComputeStats(arts, ventes).lowStock == |LowStockArticles(arts)|
  {
    FilterMembers(arts, IsLowStock);
    FilterIsSubsequence(arts, IsLowStock);
  }

  /** The turnover adds up the sales' totals; when each total is the sum of
      its own lines, as the checkout records it, the turnover is the amount
      of every line ever sold. */
  lemma {:induction false} TurnoverOfRecordedSales(ventes: seq<Vente>)
    requires forall v :: v in ventes ==> v.total == LinesTotal(v.articles)
    ensures SumOf(ventes, VenteTotal) == LinesTotal(AllLines(ventes))
    decreases |ventes|
  {
    if ventes != [] {
      var init, last := ventes[..|ventes| - 1], ventes[|ventes| - 1];
      assert ventes == init + [last];
      assert forall v :: v in init ==> v in ventes;
      TurnoverOfRecordedSales(init);
      SumOfAppend(init, [last], VenteTotal);
      SumOfAppend(AllLines(init), last.articles, LineAmount);
    }
  }

  /** The turnover of two runs of sales is the sum of their turnovers. */
  lemma TurnoverAppend(a: seq<Vente>, b: seq<Vente>)
    ensures ComputeStats([], a + b).caTotal == ComputeStats([], a).caTotal + ComputeStats([], b).caTotal
    ensures ComputeStats([], a + b).nbVentes == ComputeStats([], a).nbVentes + ComputeStats([], b).nbVentes
  {
    SumOfAppend(a, b, VenteTotal);
  }

  predicate InStock(a: Article) { a.stock > 0 }

  /** `articles.filter(a => a.stock > 0).slice(0, 4)`. */
  function QuickAdd(arts: seq<Article>): seq<Article> {
    Take(Filter(arts, InStock), 4)
  }

  /** The quick-add list is the first articles in stock, in store order: at
      most four, all of them when fewer are in stock. */
  lemma QuickAddSpec(arts: seq<Article>)
    ensures QuickAdd(arts) <= Filter(arts, InStock)
    ensures |QuickAdd(arts)| == Min(4, |Filter(arts, InStock)|)
    ensures forall a :: a in QuickAdd(arts) ==> a in arts && a.stock > 0
  {
    FilterMembers(arts, InStock);
    var f := Filter(arts, InStock);
    assert QuickAdd(arts) == f[..Min(4, |f|)];
    assert forall a :: a in QuickAdd(arts) ==> a in f;
  }

  /** `ventes.slice(-4).reverse()`. */
  function RecentSales(ventes: seq<Vente>): seq<Vente> {
    Reverse(ventes[|ventes| - Min(4, |ventes|)..])
  }

  /** The latest sales: at most four, newest first. */
  lemma RecentSalesSpec(ventes: seq<Vente>)
    ensures |RecentSales(ventes)| == Min(4, |ventes|)
    ensures forall i :: 0 <= i < |RecentSales(ventes)| ==> RecentSales(ventes)[i] == ventes[|ventes| - 1 - i]
  {
  }

  /** What `loadData` puts in the page state. */
  datatype View = View(articles: seq<Article>, ventes: seq<Vente>, stats: Stats,
                       categoryStock: seq<Entry>, topProducts: seq<Entry>)

  /** `loadData`: read both stores, then compute the figures, `catStock`
      and `sortedTop`. */
  method LoadData(db: Db.Database) returns (view: View)
    ensures view.articles == db.articles && view.ventes == db.ventes
    ensures view.stats == ComputeStats(db.articles, db.ventes)
    ensures view.categoryStock == CategoryStock(db.articles)
    ensures view.topProducts == TopProducts(db.ventes)
  {
    var a, v := db.articles, db.ventes;
    var catStock := BuildCategoryStock(a);
    var sales := BuildSalesByProduct(v);
    var sortedTop := Take(SortByQty(sales), 5);
    view := View(a, v, ComputeStats(a, v), catStock, sortedTop);
  }
}
