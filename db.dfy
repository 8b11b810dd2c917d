/** lib/db.ts: the articles and sales stores (keys assigned by an
    auto-increment generator), the settings store holding one record under
    the key 'config', the stock decrement that follows a sale and the 90-day
    retention sweep. Each store is held as its records in key order; a
    transaction that fails leaves its store as it was. */
module Db {
  import opened Wrappers
  import opened Seqs
  import opened Records
  import opened Store

  const CONFIG_KEY: string := "config"

  /** 90 days in milliseconds. */
  const RETENTION_MS: int := 90 * 24 * 60 * 60 * 1000

  /** The key path of the articles store. */
  function ArticleKey(a: Article): int {
    a.id
  }

  /** The key path of the sales store. */
  function VenteKey(v: Vente): int {
    v.id
  }

  /** One turn of the loop in `updateStockApresVente`: re-read the stored
      article, subtract the line's quantity, write it back; an id with no
      article is skipped. */
  function ApplySaleLine(arts: seq<Article>, item: CartLine): seq<Article> {
    match Get(arts, ArticleKey, item.art.id)
    case None => arts
    case Some(a) => Put(arts, ArticleKey, a.(stock := a.stock - item.qte))
  }

  /** The articles store after `updateStockApresVente(items)`, line by line. */
  function StockAfterSale(arts: seq<Article>, items: seq<CartLine>): seq<Article> {
    if items == [] then arts
    else ApplySaleLine(StockAfterSale(arts, items[..|items| - 1]), items[|items| - 1])
  }

  /** The total quantity the items take from the article with key id. */
  function QtyFor(items: seq<CartLine>, id: int): int {
    if items == [] then 0
    else QtyFor(items[..|items| - 1], id) + (if items[|items| - 1].art.id == id then items[|items| - 1].qte else 0)
  }

  /** A looked-up article with its stock lowered by q. */
  function Decremented(o: Option<Article>, q: int): Option<Article> {
    match o
    case None => None
    case Some(a) => Some(a.(stock := a.stock - q))
  }

  lemma DecrementedZero(o: Option<Article>)
    ensures Decremented(o, 0) == o
  {
    if o.Some? {
      assert o.value.(stock := o.value.stock - 0) == o.value;
    }
  }

  lemma DecrementedTwice(o: Option<Article>, p: int, q: int)
    ensures Decremented(Decremented(o, p), q) == Decremented(o, p + q)
  {
  }

  /** A line naming a missing article leaves the store as it is. */
  lemma ApplyMissing(arts: seq<Article>, item: CartLine)
    requires Get(arts, ArticleKey, item.art.id).None?
    ensures ApplySaleLine(arts, item) == arts
  {
  }

  /** A line naming a stored article writes back its decremented record. */
  lemma ApplyPresent(arts: seq<Article>, item: CartLine, a: Article)
    requires Get(arts, ArticleKey, item.art.id) == Some(a)
    ensures ApplySaleLine(arts, item) == Put(arts, ArticleKey, a.(stock := a.stock - item.qte))
  {
  }

  /** One line of a sale decrements the stock of the article it names and
      nothing else. */
  lemma ApplySaleLineEffect(arts: seq<Article>, item: CartLine)
    ensures forall id :: Get(ApplySaleLine(arts, item), ArticleKey, id) ==
              Decremented(Get(arts, ArticleKey, id), if id == item.art.id then item.qte else 0)
  {
    var t := ApplySaleLine(arts, item);
    var g := Get(arts, ArticleKey, item.art.id);
    if g.None? {
      ApplyMissing(arts, item);
      forall id
        ensures Get(t, ArticleKey, id) == Decremented(Get(arts, ArticleKey, id), if id == item.art.id then item.qte else 0)
      {
        DecrementedZero(Get(arts, ArticleKey, id));
      }
    } else {
      var a := g.value;
      var b := a.(stock := a.stock - item.qte);
      ApplyPresent(arts, item, a);
      forall id
        ensures Get(t, ArticleKey, id) == Decremented(Get(arts, ArticleKey, id), if id == item.art.id then item.qte else 0)
      {
        if id == item.art.id {
          PutFinds(arts, ArticleKey, b);
        } else {
          PutKeepsOthers(arts, ArticleKey, b, id);
          DecrementedZero(Get(arts, ArticleKey, id));
        }
      }
    }
  }

  /** One line of a sale keeps the key order and the bound on keys. */
  lemma ApplySaleLineKeepsOrder(arts: seq<Article>, item: CartLine, bound: int)
    requires Ascending(arts, ArticleKey) && KeysBelow(arts, ArticleKey, bound)
    ensures Ascending(ApplySaleLine(arts, item), ArticleKey)
    ensures KeysBelow(ApplySaleLine(arts, item), ArticleKey, bound)
  {
    var g := Get(arts, ArticleKey, item.art.id);
    if g.None? {
      ApplyMissing(arts, item);
    } else {
      var a := g.value;
      var b := a.(stock := a.stock - item.qte);
      ApplyPresent(arts, item, a);
      PutGet(arts, ArticleKey, b);
      PutKeysBelow(arts, ArticleKey, b, bound);
    }
  }

  /** After a sale every stored article has lost exactly the summed quantity
      of the lines naming it (repeated ids count cumulatively, and nothing
      stops the stock at zero); its other fields are kept and no article
      appears or disappears. */
  lemma {:induction false} StockAfterSaleEffect(arts: seq<Article>, items: seq<CartLine>)
    ensures forall id :: Get(StockAfterSale(arts, items), ArticleKey, id) == Decremented(Get(arts, ArticleKey, id), QtyFor(items, id))
  {
    if items == [] {
      forall id ensures Get(arts, ArticleKey, id) == Decremented(Get(arts, ArticleKey, id), QtyFor(items, id)) {
        DecrementedZero(Get(arts, ArticleKey, id));
      }
    } else {
      var init := items[..|items| - 1];
      var item := items[|items| - 1];
      var mid := StockAfterSale(arts, init);
      assert StockAfterSale(arts, items) == ApplySaleLine(mid, item);
      StockAfterSaleEffect(arts, init);
      ApplySaleLineEffect(mid, item);
      forall id
        ensures Get(StockAfterSale(arts, items), ArticleKey, id) == Decremented(Get(arts, ArticleKey, id), QtyFor(items, id))
      {
        var q := if id == item.art.id then item.qte else 0;
        assert QtyFor(items, id) == QtyFor(init, id) + q;
        DecrementedTwice(Get(arts, ArticleKey, id), QtyFor(init, id), q);
      }
    }
  }

  lemma StockAfterSaleStep(arts: seq<Article>, items: seq<CartLine>, i: int)
    requires 0 <= i < |items|
    ensures StockAfterSale(arts, items[..i + 1]) == ApplySaleLine(StockAfterSale(arts, items[..i]), items[i])
  {
    assert items[..i + 1][..i] == items[..i];
  }

  /** An article named by no line keeps its record. */
  lemma UnreferencedArticleUnchanged(arts: seq<Article>, items: seq<CartLine>, id: int)
    requires forall i :: 0 <= i < |items| ==> items[i].art.id != id
    ensures Get(StockAfterSale(arts, items), ArticleKey, id) == Get(arts, ArticleKey, id)
  {
    StockAfterSaleEffect(arts, items);
    QtyForAbsent(items, id);
  }

  lemma {:induction false} QtyForAbsent(items: seq<CartLine>, id: int)
    requires forall i :: 0 <= i < |items| ==> items[i].art.id != id
    ensures QtyFor(items, id) == 0
  {
    if items != [] {
      QtyForAbsent(items[..|items| - 1], id);
    }
  }

  /** The stock is not floored: selling two of an article that has one in
      stock leaves -1. */
  lemma StockMayGoNegative()
    ensures var a := Article(1, "Coffee", 500, "Boisson", 1);
            StockAfterSale([a], [CartLine(a, 2)]) == [a.(stock := -1)]
  {
    var a := Article(1, "Coffee", 500, "Boisson", 1);
    assert [CartLine(a, 2)][..0] == [];
  }

  /** The body of the loop in `updateStockApresVente`: `get` the article,
      lower its stock, `put` it back. */
  method DecrementOne(store: seq<Article>, item: CartLine) returns (next: seq<Article>)
    ensures next == ApplySaleLine(store, item)
  {
    next := store;
    var found := Get(store, ArticleKey, item.art.id);
    if found.Some? {
      ApplyPresent(store, item, found.value);
      var article := found.value;
      article := article.(stock := article.stock - item.qte);
      assert article == found.value.(stock := found.value.stock - item.qte);
      next := Put(store, ArticleKey, article);
    } else {
      ApplyMissing(store, item);
    }
  }

  /** The loop of `updateStockApresVente` inside its transaction, one cart
      line at a time. */
  method DecrementStock(arts: seq<Article>, items: seq<CartLine>, bound: int) returns (store: seq<Article>)
    requires Ascending(arts, ArticleKey) && KeysBelow(arts, ArticleKey, bound)
    ensures store == StockAfterSale(arts, items)
    ensures Ascending(store, ArticleKey) && KeysBelow(store, ArticleKey, bound)
  {
    store := arts;
    var i := 0;
    while i < |items|
      invariant 0 <= i <= |items|
      invariant Ascending(store, ArticleKey) && KeysBelow(store, ArticleKey, bound)
      invariant store == StockAfterSale(arts, items[..i])
    {
      StockAfterSaleStep(arts, items, i);
      ApplySaleLineKeepsOrder(store, items[i], bound);
      store := DecrementOne(store, items[i]);
      i := i + 1;
    }
    assert items[..|items|] == items;
  }

  /** The sweep's test: the date parses (`new Date(s).getTime()` is not NaN)
      and the sale is strictly more than 90 days older than now. */
  predicate IsExpired(v: Vente, now: int, parseDate: string -> Option<int>) {
    var t := parseDate(v.date);
    t.Some? && now - t.value > RETENTION_MS
  }

  function KeepsRecent(now: int, parseDate: string -> Option<int>): Vente -> bool {
    (v: Vente) => !IsExpired(v, now, parseDate)
  }

  /** The sales store after `cleanOldVentes`. */
  function Retained(ventes: seq<Vente>, now: int, parseDate: string -> Option<int>): seq<Vente> {
    Filter(ventes, KeepsRecent(now, parseDate))
  }

  /** The sweep keeps a sale exactly when its date does not parse or it is
      at most 90 days old, the boundary included, and keeps the sales it
      keeps in their order. */
  lemma RetainedExactly(ventes: seq<Vente>, now: int, parseDate: string -> Option<int>)
    ensures forall v :: v in Retained(ventes, now, parseDate) <==>
              v in ventes && (parseDate(v.date).None? || now - parseDate(v.date).value <= RETENTION_MS)
    ensures IsSubsequence(Retained(ventes, now, parseDate), ventes)
  {
    FilterMembers(ventes, KeepsRecent(now, parseDate));
    FilterIsSubsequence(ventes, KeepsRecent(now, parseDate));
  }

  /** One turn of the sweep over the snapshot `all` of an ascending store. */
  lemma SweepStep(all: seq<Vente>, i: int, now: int, parseDate: string -> Option<int>)
    requires Ascending(all, VenteKey) && 0 <= i < |all|
    ensures IsExpired(all[i], now, parseDate) ==>
              Remove(Retained(all[..i], now, parseDate) + all[i..], VenteKey, all[i].id)
              == Retained(all[..i + 1], now, parseDate) + all[i + 1..]
    ensures !IsExpired(all[i], now, parseDate) ==>
              Retained(all[..i], now, parseDate) + all[i..]
              == Retained(all[..i + 1], now, parseDate) + all[i + 1..]
  {
    var keep := KeepsRecent(now, parseDate);
    var r := Retained(all[..i], now, parseDate);
    assert all[..i + 1] == all[..i] + [all[i]];
    assert all[i..] == [all[i]] + all[i + 1..];
    FilterAppend(all[..i], [all[i]], keep);
    FilterMembers(all[..i], keep);
    if IsExpired(all[i], now, parseDate) {
      assert Filter([all[i]], keep) == [];
      assert Retained(all[..i + 1], now, parseDate) == r;
      var k := all[i].id;
      forall j | 0 <= j < |r|
        ensures VenteKey(r[j]) != k
      {
        assert r[j] in all[..i];
      }
      RemoveAbsent(r, VenteKey, k);
      RemoveAbsent(all[i + 1..], VenteKey, k);
      RemoveAppend(r, all[i..], VenteKey, k);
      RemoveAppend([all[i]], all[i + 1..], VenteKey, k);
    } else {
      assert Filter([all[i]], keep) == [all[i]];
    }
  }

  /** The loop of `cleanOldVentes` over the snapshot `all` that `getAll`
      returned: each expired sale is deleted from the store by its id. */
  method Sweep(all: seq<Vente>, now: int, parseDate: string -> Option<int>, bound: int)
    returns (remaining: seq<Vente>)
    requires Ascending(all, VenteKey) && KeysBelow(all, VenteKey, bound)
    ensures remaining == Retained(all, now, parseDate)
    ensures Ascending(remaining, VenteKey) && KeysBelow(remaining, VenteKey, bound)
  {
    remaining := all;
    var i := 0;
    assert all[..0] == [] && all[0..] == all;
    while i < |all|
      invariant 0 <= i <= |all|
      invariant Ascending(remaining, VenteKey) && KeysBelow(remaining, VenteKey, bound)
      invariant remaining == Retained(all[..i], now, parseDate) + all[i..]
    {
      var vente := all[i];
      SweepStep(all, i, now, parseDate);
      var dateVente := parseDate(vente.date);
      if dateVente.Some? && now - dateVente.value > RETENTION_MS {
        RemoveGet(remaining, VenteKey, vente.id);
        RemoveKeysBelow(remaining, VenteKey, vente.id, bound);
        remaining := Remove(remaining, VenteKey, vente.id);
      }
      i := i + 1;
    }
    assert all[..|all|] == all;
  }

  /** The in-memory stand-in for the IndexedDB database `minipay_db`. */
  class Database {
    var articles: seq<Article>
    var ventes: seq<Vente>
    var settings: map<string, Settings>
    /** The articles store's key generator: the key the next `add` receives. */
    var nextArticleId: int
    /** The sales store's key generator. */
    var nextVenteId: int

    /** Each store is in key order, below its generator. */
    ghost predicate Valid()
      reads this
    {
      1 <= nextArticleId && 1 <= nextVenteId &&
      Ascending(articles, ArticleKey) && KeysBelow(articles, ArticleKey, nextArticleId) &&
      Ascending(ventes, VenteKey) && KeysBelow(ventes, VenteKey, nextVenteId)
    }

    /** A freshly created database: empty stores, generators at 1. */
    constructor ()
      ensures Valid()
      ensures articles == [] && ventes == [] && settings == map[]
      ensures nextArticleId == 1 && nextVenteId == 1
    {
      articles, ventes, settings := [], [], map[];
      nextArticleId, nextVenteId := 1, 1;
    }

    /** `getSettings()`: the record under 'config', if any. */
    function GetSettings(): Option<Settings>
      reads this
    {
      if CONFIG_KEY in settings then Some(settings[CONFIG_KEY]) else None
    }

    /** `addArticle(article)` for an article without id: the generator's key
        is assigned, and the article goes last in key order. */
    method AddArticle(nom: string, prix: int, categorie: string, stock: int) returns (id: int)
      requires Valid()
      modifies this
      ensures Valid()
      ensures id == old(nextArticleId) && Get(old(articles), ArticleKey, id) == None
      ensures articles == old(articles) + [Article(id, nom, prix, categorie, stock)]
      ensures nextArticleId == id + 1
      ensures ventes == old(ventes) && settings == old(settings) && nextVenteId == old(nextVenteId)
    {
      id := nextArticleId;
      var a := Article(id, nom, prix, categorie, stock);
      PutAbove(articles, ArticleKey, a);
      articles := Put(articles, ArticleKey, a);
      nextArticleId := nextArticleId + 1;
    }

    /** `updateArticle(article)`: `put` under the article's own id, inserting
        or replacing; a key at or above the generator moves it past the key. */
    method UpdateArticle(a: Article)
      requires Valid()
      modifies this
      ensures Valid()
      ensures articles == Put(old(articles), ArticleKey, a)
      ensures Get(articles, ArticleKey, a.id) == Some(a)
      ensures forall k :: k != a.id ==> Get(articles, ArticleKey, k) == Get(old(articles), ArticleKey, k)
      ensures nextArticleId == Max(old(nextArticleId), a.id + 1)
      ensures ventes == old(ventes) && settings == old(settings) && nextVenteId == old(nextVenteId)
    {
      if a.id >= nextArticleId {
        nextArticleId := a.id + 1;
      }
      PutGet(articles, ArticleKey, a);
      PutKeysBelow(articles, ArticleKey, a, nextArticleId);
      articles := Put(articles, ArticleKey, a);
    }

    /** `deleteArticle(id)`; deleting a missing key changes nothing. */
    method DeleteArticle(id: int)
      requires Valid()
      modifies this
      ensures Valid()
      ensures articles == Remove(old(articles), ArticleKey, id)
      ensures Get(articles, ArticleKey, id) == None
      ensures forall k :: k != id ==> Get(articles, ArticleKey, k) == Get(old(articles), ArticleKey, k)
      ensures ventes == old(ventes) && settings == old(settings)
      ensures nextArticleId == old(nextArticleId) && nextVenteId == old(nextVenteId)
    {
      RemoveGet(articles, ArticleKey, id);
      RemoveKeysBelow(articles, ArticleKey, id, nextArticleId);
      articles := Remove(articles, ArticleKey, id);
    }

    /** `updateStockApresVente(items)`: one readwrite transaction over the
        articles store, committed when its loop ends. */
    method UpdateStockApresVente(items: seq<CartLine>)
      requires Valid()
      modifies this
      ensures Valid()
      ensures articles == StockAfterSale(old(articles), items)
      ensures ventes == old(ventes) && settings == old(settings)
      ensures nextArticleId == old(nextArticleId) && nextVenteId == old(nextVenteId)
    {
      var store := DecrementStock(articles, items, nextArticleId);
      articles := store;
    }

    /** `saveVente(vente)`: the sale gets the generator's key and goes last. */
    method SaveVente(d: VenteData) returns (id: int)
      requires Valid()
      modifies this
      ensures Valid()
      ensures id == old(nextVenteId) && Get(old(ventes), VenteKey, id) == None
      ensures ventes == old(ventes) + [Vente(id, d.date, d.heure, d.articles, d.total)]
      ensures nextVenteId == id + 1
      ensures articles == old(articles) && settings == old(settings) && nextArticleId == old(nextArticleId)
    {
      id := nextVenteId;
      var v := Vente(id, d.date, d.heure, d.articles, d.total);
      PutAbove(ventes, VenteKey, v);
      ventes := Put(ventes, VenteKey, v);
      nextVenteId := nextVenteId + 1;
    }

    /** `cleanOldVentes()`: walk the sales as `getAll` lists them and delete
        each expired one by its id. `now` is `Date.now()`; `parseDate`
        stands for `new Date(s).getTime()`, with `None` for NaN. */
    method CleanOldVentes(now: int, parseDate: string -> Option<int>)
      requires Valid()
      modifies this
      ensures Valid()
      ensures ventes == Retained(old(ventes), now, parseDate)
      ensures articles == old(articles) && settings == old(settings)
      ensures nextArticleId == old(nextArticleId) && nextVenteId == old(nextVenteId)
    {
      ventes := Sweep(ventes, now, parseDate, nextVenteId);
    }

    /** `saveSettings(s)`: `put` under the fixed key 'config'. */
    method SaveSettings(s: Settings)
      requires Valid()
      modifies this
      ensures Valid()
      ensures GetSettings() == Some(s)
      ensures settings == old(settings)[CONFIG_KEY := s]
      ensures articles == old(articles) && ventes == old(ventes)
      ensures nextArticleId == old(nextArticleId) && nextVenteId == old(nextVenteId)
    {
      settings := settings[CONFIG_KEY := s];
    }
  }
}
