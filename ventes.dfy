/** app/ventes/page.tsx: the cart (add, change quantity, remove, total) and
    the checkout `validerVente`. */
module Ventes {
  import opened Wrappers
  import opened Seqs
  import opened Records
  import opened Db
  import opened ThermalPrint
  import opened Catalogue
  import opened Text

  // ---------------------------------------------------------------------
  // The cart
  // ---------------------------------------------------------------------

  /** Some line of the cart carries the article id. */
  predicate InCart(cart: seq<CartLine>, id: int) {
    exists i :: 0 <= i < |cart| && cart[i].art.id == id
  }

  /** No two lines carry the same article id. */
  predicate UniqueIds(cart: seq<CartLine>) {
    forall i, j :: 0 <= i < j < |cart| ==> cart[i].art.id != cart[j].art.id
  }

  /** Every line has a quantity of at least one. */
  predicate PositiveQtys(cart: seq<CartLine>) {
    forall i :: 0 <= i < |cart| ==> cart[i].qte >= 1
  }

  /** The number of units of article id in the cart. */
  function CartQty(cart: seq<CartLine>, id: int): int {
    SumOf(cart, UnitsOf(id))
  }

  /** A line's units of article id. */
  function UnitsOf(id: int): CartLine -> int {
    (l: CartLine) => if l.art.id == id then l.qte else 0
  }

  /** The filter of the remove button. */
  function KeepsOtherThan(id: int): CartLine -> bool {
    (l: CartLine) => l.art.id != id
  }

  /** `ajouterAuPanier(art)`: a line with the article's id gets one more
      unit; otherwise a line `{...art, qte: 1}` is appended. */
  function AjouterAuPanier(cart: seq<CartLine>, art: Article): seq<CartLine> {
    if InCart(cart, art.id) then
      seq(|cart|, i requires 0 <= i < |cart| =>
        if cart[i].art.id == art.id then cart[i].(qte := cart[i].qte + 1) else cart[i])
    else cart + [CartLine(art, 1)]
  }

  /** `modifierQte(id, delta)`: the line with that id takes `qte + delta`
      when that is positive and is left alone otherwise. */
  function ModifierQte(cart: seq<CartLine>, id: int, delta: int): (r: seq<CartLine>)
    ensures |r| == |cart|
    ensures forall i :: 0 <= i < |r| ==> r[i].art == cart[i].art
  {
    seq(|cart|, i requires 0 <= i < |cart| =>
      if cart[i].art.id == id && cart[i].qte + delta > 0 then cart[i].(qte := cart[i].qte + delta) else cart[i])
  }

  /** The remove button: `panier.filter(p => p.id !== id)`. */
  function Retirer(cart: seq<CartLine>, id: int): seq<CartLine> {
    Filter(cart, KeepsOtherThan(id))
  }

  /** The index of the line carrying id, in a cart with unique ids. */
  lemma LineOf(cart: seq<CartLine>, id: int) returns (k: int)
    requires InCart(cart, id)
    ensures 0 <= k < |cart| && cart[k].art.id == id
    ensures UniqueIds(cart) ==> forall i :: 0 <= i < |cart| && i != k ==> cart[i].art.id != id
  {
    k :| 0 <= k < |cart| && cart[k].art.id == id;
  }

  /** Adding an article puts exactly one more unit of it in the cart, leaves
      the units of every other article as they were, and raises the total by
      the unit price of its line: the price frozen in the existing line, or
      the article's price for a new line. Unique ids and positive quantities
      are kept. */
  lemma AddToCart(cart: seq<CartLine>, art: Article)
    requires UniqueIds(cart)
    ensures var r := AjouterAuPanier(cart, art);
            InCart(r, art.id) && UniqueIds(r) &&
            (PositiveQtys(cart) ==> PositiveQtys(r)) &&
            CartQty(r, art.id) == CartQty(cart, art.id) + 1 &&
            (forall id :: id != art.id ==> CartQty(r, id) == CartQty(cart, id))
    ensures InCart(cart, art.id) ==>
              exists k :: 0 <= k < |cart| && cart[k].art.id == art.id &&
                LinesTotal(AjouterAuPanier(cart, art)) == LinesTotal(cart) + cart[k].art.prix
    ensures !InCart(cart, art.id) ==>
              AjouterAuPanier(cart, art) == cart + [CartLine(art, 1)] &&
              LinesTotal(AjouterAuPanier(cart, art)) == LinesTotal(cart) + art.prix
  {
    if InCart(cart, art.id) {
      AddToExistingLine(cart, art);
    } else {
      AddNewLine(cart, art);
    }
  }

  lemma AddToExistingLine(cart: seq<CartLine>, art: Article)
    requires UniqueIds(cart) && InCart(cart, art.id)
    ensures var r := AjouterAuPanier(cart, art);
            InCart(r, art.id) && UniqueIds(r) &&
            (PositiveQtys(cart) ==> PositiveQtys(r)) &&
            CartQty(r, art.id) == CartQty(cart, art.id) + 1 &&
            (forall id :: id != art.id ==> CartQty(r, id) == CartQty(cart, id))
    ensures exists k :: 0 <= k < |cart| && cart[k].art.id == art.id &&
              LinesTotal(AjouterAuPanier(cart, art)) == LinesTotal(cart) + cart[k].art.prix
  {
    var r := AjouterAuPanier(cart, art);
    var k := LineOf(cart, art.id);
    assert r[k] == cart[k].(qte := cart[k].qte + 1);
    assert forall i :: 0 <= i < |cart| && i != k ==> r[i] == cart[i];
    assert InCart(r, art.id) by { assert r[k].art.id == art.id; }
    SumOfUpdate(cart, r, UnitsOf(art.id), k);
    forall id | id != art.id
      ensures CartQty(r, id) == CartQty(cart, id)
    {
      SumOfUpdate(cart, r, UnitsOf(id), k);
    }
    SumOfUpdate(cart, r, LineAmount, k);
  }

  lemma AddNewLine(cart: seq<CartLine>, art: Article)
    requires UniqueIds(cart) && !InCart(cart, art.id)
    ensures var r := AjouterAuPanier(cart, art);
            InCart(r, art.id) && UniqueIds(r) &&
            (PositiveQtys(cart) ==> PositiveQtys(r)) &&
            CartQty(r, art.id) == CartQty(cart, art.id) + 1 &&
            (forall id :: id != art.id ==> CartQty(r, id) == CartQty(cart, id))
    ensures AjouterAuPanier(cart, art) == cart + [CartLine(art, 1)]
    ensures LinesTotal(AjouterAuPanier(cart, art)) == LinesTotal(cart) + art.prix
  {
    var r := AjouterAuPanier(cart, art);
    var n := CartLine(art, 1);
    assert r[|cart|] == n;
    assert InCart(r, art.id);
    SumOfAppend(cart, [n], UnitsOf(art.id));
    forall id | id != art.id
      ensures CartQty(r, id) == CartQty(cart, id)
    {
      SumOfAppend(cart, [n], UnitsOf(id));
    }
    SumOfAppend(cart, [n], LineAmount);
  }

  /** Changing a quantity applies exactly when the result stays positive:
      the line's units grow by delta or stay as they were, the total moves by
      prix × delta or not at all, and every other article keeps its units.
      Unique ids and positive quantities are kept. */
  lemma ChangeQty(cart: seq<CartLine>, id: int, delta: int)
    requires UniqueIds(cart)
    ensures var r := ModifierQte(cart, id, delta);
            UniqueIds(r) && (PositiveQtys(cart) ==> PositiveQtys(r)) &&
            (forall other :: other != id ==> CartQty(r, other) == CartQty(cart, other))
    ensures InCart(cart, id) ==>
              exists k :: 0 <= k < |cart| && cart[k].art.id == id &&
                var applies := cart[k].qte + delta > 0;
                CartQty(ModifierQte(cart, id, delta), id) == CartQty(cart, id) + (if applies then delta else 0) &&
                LinesTotal(ModifierQte(cart, id, delta)) ==
                  LinesTotal(cart) + (if applies then cart[k].art.prix * delta else 0)
    ensures !InCart(cart, id) ==> ModifierQte(cart, id, delta) == cart
  {
    var r := ModifierQte(cart, id, delta);
    if InCart(cart, id) {
      var k := LineOf(cart, id);
      assert forall i :: 0 <= i < |cart| && i != k ==> r[i] == cart[i];
      SumOfUpdate(cart, r, UnitsOf(id), k);
      forall other | other != id
        ensures CartQty(r, other) == CartQty(cart, other)
      {
        SumOfUpdate(cart, r, UnitsOf(other), k);
      }
      SumOfUpdate(cart, r, LineAmount, k);
      var applies := cart[k].qte + delta > 0;
      if applies {
        assert r[k] == cart[k].(qte := cart[k].qte + delta);
        assert LineAmount(r[k]) == LineAmount(cart[k]) + cart[k].art.prix * delta;
      } else {
        assert r[k] == cart[k];
      }
      assert CartQty(r, id) == CartQty(cart, id) + (if applies then delta else 0);
      assert LinesTotal(r) == LinesTotal(cart) + (if applies then cart[k].art.prix * delta else 0);
    } else {
      assert r == cart;
    }
  }

  /** In a cart with unique ids, the units of an article are the quantity
      of its one line, and zero when it is absent. */
  lemma CartQtyIsLineQty(cart: seq<CartLine>, id: int)
    requires UniqueIds(cart)
    ensures InCart(cart, id) ==>
              exists k :: 0 <= k < |cart| && cart[k].art.id == id && CartQty(cart, id) == cart[k].qte
    ensures !InCart(cart, id) ==> CartQty(cart, id) == 0
  {
    if InCart(cart, id) {
      var k := LineOf(cart, id);
      assert cart == cart[..k] + [cart[k]] + cart[k + 1..];
      SumOfAppend(cart[..k] + [cart[k]], cart[k + 1..], UnitsOf(id));
      SumOfAppend(cart[..k], [cart[k]], UnitsOf(id));
      NoUnits(cart[..k], id);
      NoUnits(cart[k + 1..], id);
    } else {
      NoUnits(cart, id);
    }
  }

  lemma {:induction false} NoUnits(cart: seq<CartLine>, id: int)
    requires forall i :: 0 <= i < |cart| ==> cart[i].art.id != id
    ensures CartQty(cart, id) == 0
  {
    if cart != [] {
      NoUnits(cart[1..], id);
    }
  }

  /** Removing drops exactly the line with that id and keeps the others in
      order; the total falls by that line's amount. */
  lemma RemoveFromCart(cart: seq<CartLine>, id: int)
    requires UniqueIds(cart)
    ensures UniqueIds(Retirer(cart, id)) && !InCart(Retirer(cart, id), id)
    ensures forall l :: l in Retirer(cart, id) <==> l in cart && l.art.id != id
    ensures InCart(cart, id) ==>
              exists k :: 0 <= k < |cart| && cart[k].art.id == id &&
                Retirer(cart, id) == cart[..k] + cart[k + 1..] &&
                LinesTotal(Retirer(cart, id)) == LinesTotal(cart) - LineAmount(cart[k])
    ensures !InCart(cart, id) ==> Retirer(cart, id) == cart
  {
    var p := KeepsOtherThan(id);
    var r := Retirer(cart, id);
    FilterMembers(cart, p);
    FilterIsSubsequence(cart, p);
    SubsequenceKeepsUnique(r, cart);
    if InCart(cart, id) {
      var k := LineOf(cart, id);
      RemoveOneLine(cart, id, k);
      assert cart == cart[..k] + [cart[k]] + cart[k + 1..];
      SumOfAppend(cart[..k] + [cart[k]], cart[k + 1..], LineAmount);
      SumOfAppend(cart[..k], [cart[k]], LineAmount);
      SumOfAppend(cart[..k], cart[k + 1..], LineAmount);
    } else {
      FilterAll(cart, p);
    }
  }

  lemma RemoveOneLine(cart: seq<CartLine>, id: int, k: int)
    requires 0 <= k < |cart| && cart[k].art.id == id
    requires forall i :: 0 <= i < |cart| && i != k ==> cart[i].art.id != id
    ensures Retirer(cart, id) == cart[..k] + cart[k + 1..]
  {
    var p := KeepsOtherThan(id);
    assert cart == cart[..k] + [cart[k]] + cart[k + 1..];
    FilterAppend(cart[..k] + [cart[k]], cart[k + 1..], p);
    FilterAppend(cart[..k], [cart[k]], p);
    FilterAll(cart[..k], p);
    FilterAll(cart[k + 1..], p);
    assert Filter([cart[k]], p) == [];
  }

  /** A subsequence of a cart with unique ids has unique ids. */
  lemma {:induction false} SubsequenceKeepsUnique(sub: seq<CartLine>, cart: seq<CartLine>)
    requires IsSubsequence(sub, cart) && UniqueIds(cart)
    ensures UniqueIds(sub)
    decreases |cart|
  {
    if sub != [] {
      if sub[0] == cart[0] && IsSubsequence(sub[1..], cart[1..]) {
        SubsequenceKeepsUnique(sub[1..], cart[1..]);
        SubsequenceMembers(sub[1..], cart[1..]);
        forall j | 0 < j < |sub|
          ensures sub[0].art.id != sub[j].art.id
        {
          assert sub[j] == sub[1..][j - 1];
          assert sub[j] in sub[1..];
          assert sub[j] in cart[1..];
          var m :| 0 <= m < |cart[1..]| && cart[1..][m] == sub[j];
          assert cart[m + 1] == sub[j];
        }
      } else {
        SubsequenceKeepsUnique(sub, cart[1..]);
      }
    }
  }

  lemma {:induction false} SubsequenceMembers<T>(sub: seq<T>, s: seq<T>)
    requires IsSubsequence(sub, s)
    ensures forall x :: x in sub ==> x in s
    decreases |s|
  {
    if sub != [] {
      if sub[0] == s[0] && IsSubsequence(sub[1..], s[1..]) {
        SubsequenceMembers(sub[1..], s[1..]);
        assert sub == [sub[0]] + sub[1..];
      } else {
        SubsequenceMembers(sub, s[1..]);
      }
    }
  }

  // ---------------------------------------------------------------------
  // The sales page and its checkout
  // ---------------------------------------------------------------------

  /** The three texts `validerVente` reads from `new Date()`: the locale
      date, the locale time, and the locale date-and-time. */
  datatype Clock = Clock(dateText: string, timeText: string, dateTimeText: string)

  /** Which of the page's awaited database calls rejects, if any. */
  datatype DbFault = NoFault | SaveFails | StockFails | ReloadFails

  /** How the ticket went out: Bluetooth, or the system print dialog as the
      fallback when `printViaBluetooth` throws. */
  datatype PrintPath = Bluetooth | SystemPrint

  /** What a press of the checkout button did. */
  datatype Outcome = Ignored | Failed | Sold(path: PrintPath)

  const SUCCESS_MESSAGE := "Vente réussie !"
  const ERROR_ALERT := "Erreur lors de la validation"

  /** The state of `VentesContent`. */
  class Checkout {
    var articles: seq<Article>
    var search: string
    var panier: seq<CartLine>
    var message: string
    var shopInfo: Option<Settings>
    var isPrinting: bool
    var derniereVente: Option<VenteData>
    /** The alerts shown so far, oldest first. */
    var alerts: seq<string>

    /** The cart holds one line per article, each with at least one unit. */
    predicate Valid()
      reads this
    {
      UniqueIds(panier) && PositiveQtys(panier)
    }

    /** The page as first rendered. */
    constructor ()
      ensures Valid()
      ensures articles == [] && search == "" && panier == [] && message == ""
      ensures shopInfo == None && !isPrinting && derniereVente == None
      ensures alerts == []
    {
      articles, search, panier, message := [], "", [], "";
      shopInfo, isPrinting, derniereVente := None, false, None;
      alerts := [];
    }

    /** The first effect: `getArticles()` and `getSettings()`. */
    method Load(db: Database)
      modifies this
      ensures articles == db.articles && shopInfo == db.GetSettings()
      ensures panier == old(panier) && search == old(search) && message == old(message)
      ensures isPrinting == old(isPrinting) && derniereVente == old(derniereVente)
      ensures alerts == old(alerts)
    {
      articles := db.articles;
      shopInfo := db.GetSettings();
    }

    /** The search box's `onChange`. */
    method SetSearch(text: string)
      requires Valid()
      modifies this
      ensures Valid()
      ensures search == text
      ensures articles == old(articles) && panier == old(panier) && message == old(message)
      ensures shopInfo == old(shopInfo) && isPrinting == old(isPrinting)
      ensures derniereVente == old(derniereVente) && alerts == old(alerts)
    {
      search := text;
    }

    /** The article grid: `filtered`, with `lower` for `toLowerCase`. */
    function Filtered(lower: string -> string): (r: seq<Article>)
      reads this
      ensures IsSubsequence(r, articles)
      ensures forall a :: a in r <==>
                a in articles &&
                ((exists i :: OccursAt(lower(a.nom), lower(search), i)) ||
                 (exists i :: OccursAt(lower(a.categorie), lower(search), i)))
    {
      FilterArticlesExactly(lower, articles, search);
      FilterArticles(lower, articles, search)
    }

    /** The displayed `total`. */
    function Total(): int
      reads this
    {
      LinesTotal(panier)
    }

    method Add(art: Article)
      requires Valid()
      modifies this
      ensures Valid()
      ensures panier == AjouterAuPanier(old(panier), art)
      ensures CartQty(panier, art.id) == CartQty(old(panier), art.id) + 1
      ensures articles == old(articles) && search == old(search) && message == old(message)
      ensures shopInfo == old(shopInfo) && isPrinting == old(isPrinting)
      ensures derniereVente == old(derniereVente) && alerts == old(alerts)
    {
      AddToCart(panier, art);
      panier := AjouterAuPanier(panier, art);
    }

    method ChangeQuantity(id: int, delta: int)
      requires Valid()
      modifies this
      ensures Valid()
      ensures panier == ModifierQte(old(panier), id, delta)
      ensures articles == old(articles) && search == old(search) && message == old(message)
      ensures shopInfo == old(shopInfo) && isPrinting == old(isPrinting)
      ensures derniereVente == old(derniereVente) && alerts == old(alerts)
    {
      ChangeQty(panier, id, delta);
      panier := ModifierQte(panier, id, delta);
    }

    method RemoveLine(id: int)
      requires Valid()
      modifies this
      ensures Valid()
      ensures panier == Retirer(old(panier), id) && !InCart(panier, id)
      ensures articles == old(articles) && search == old(search) && message == old(message)
      ensures shopInfo == old(shopInfo) && isPrinting == old(isPrinting)
      ensures derniereVente == old(derniereVente) && alerts == old(alerts)
    {
      RemoveFromCart(panier, id);
      FilterMembers(panier, KeepsOtherThan(id));
      assert PositiveQtys(Retirer(panier, id)) by {
        forall i | 0 <= i < |Retirer(panier, id)|
          ensures Retirer(panier, id)[i].qte >= 1
        {
          var l := Retirer(panier, id)[i];
          assert l in Retirer(panier, id);
          var j :| 0 <= j < |panier| && panier[j] == l;
        }
      }
      panier := Retirer(panier, id);
    }

    /** `validerVente()`. An empty cart or a checkout already in progress is
        ignored. Otherwise `Begin` freezes the cart into `derniereVente` and
        records the sale, then `Complete` sends the ticket, empties the cart,
        sets the success message and reloads the article list. A rejected database call raises the error alert
        and skips what follows it; `isPrinting` is cleared on every path.
        The outcome names the print path, the system dialog being the one
        scheduled with `setTimeout(window.print, 250)`. */
    method ValiderVente(db: Database, nfd: string -> string, clock: Clock, fault: DbFault, bt: BtOutcome)
      returns (outcome: Outcome, written: seq<seq<byte>>)
      requires Valid() && db.Valid()
      modifies this, db
      ensures Valid() && db.Valid()
      ensures outcome.Ignored? <==> |old(panier)| == 0 || old(isPrinting)
      ensures outcome.Ignored? ==> unchanged(this) && unchanged(db) && written == []
      ensures !outcome.Ignored? ==>
                !isPrinting &&
                derniereVente == Some(VenteData(clock.dateText, clock.timeText, old(panier), LinesTotal(old(panier)))) &&
                search == old(search) && shopInfo == old(shopInfo) &&
                Recorded(old(db.articles), old(db.ventes), old(db.nextVenteId), db.articles, db.ventes, db.nextVenteId,
                         old(panier), clock, fault)
      ensures !outcome.Ignored? && (fault == SaveFails || fault == StockFails) ==>
                outcome == Failed && panier == old(panier) && articles == old(articles) &&
                message == old(message) && alerts == old(alerts) + [ERROR_ALERT] && written == []
      ensures !outcome.Ignored? && (fault == NoFault || fault == ReloadFails) ==>
                outcome.Sold? && panier == [] && message == SUCCESS_MESSAGE &&
                Sent(TicketChunks(nfd, old(panier), old(shopInfo)), bt, outcome.path, written) &&
                (fault == NoFault ==> articles == db.articles && alerts == old(alerts)) &&
                (fault == ReloadFails ==> articles == old(articles) && alerts == old(alerts) + [ERROR_ALERT])
    {
      if |panier| == 0 || isPrinting {
        return Ignored, [];
      }
      var cart, shop := panier, shopInfo;
      var recorded := Begin(db, clock, fault);
      if !recorded {
        return Failed, [];
      }
      outcome, written := Complete(db, nfd, cart, shop, bt, fault == ReloadFails);
    }

    /** `validerVente()` up to the ticket: `isPrinting`, `derniereVente`
        and the two database calls, whose rejection raises the alert. */
    method Begin(db: Database, clock: Clock, fault: DbFault) returns (recorded: bool)
      requires Valid() && db.Valid()
      modifies this, db
      ensures Valid() && db.Valid()
      ensures recorded <==> fault != SaveFails && fault != StockFails
      ensures derniereVente == Some(VenteData(clock.dateText, clock.timeText, old(panier), LinesTotal(old(panier))))
      ensures Recorded(old(db.articles), old(db.ventes), old(db.nextVenteId), db.articles, db.ventes, db.nextVenteId,
                       old(panier), clock, fault)
      ensures isPrinting == recorded
      ensures panier == old(panier) && articles == old(articles) && message == old(message)
      ensures search == old(search) && shopInfo == old(shopInfo)
      ensures alerts == if recorded then old(alerts) else old(alerts) + [ERROR_ALERT]
    {
      isPrinting := true;
      derniereVente := Some(VenteData(clock.dateText, clock.timeText, panier, LinesTotal(panier)));
      recorded := RecordSale(db, panier, clock, fault);
      if !recorded {
        alerts, isPrinting := alerts + [ERROR_ALERT], false;
      }
    }

    /** The inner `try` around the ticket, then `FinishSale`. */
    method Complete(db: Database, nfd: string -> string, cart: seq<CartLine>, shop: Option<Settings>,
                    bt: BtOutcome, reloadFails: bool)
      returns (outcome: Outcome, written: seq<seq<byte>>)
      modifies this
      ensures Valid()
      ensures outcome.Sold? && Sent(TicketChunks(nfd, cart, shop), bt, outcome.path, written)
      ensures panier == [] && message == SUCCESS_MESSAGE && !isPrinting
      ensures !reloadFails ==> articles == db.articles && alerts == old(alerts)
      ensures reloadFails ==> articles == old(articles) && alerts == old(alerts) + [ERROR_ALERT]
      ensures search == old(search) && shopInfo == old(shopInfo) && derniereVente == old(derniereVente)
    {
      var path;
      path, written := SendTicket(nfd, cart, shop, bt);
      FinishSale(db, reloadFails);
      outcome := Sold(path);
    }

    /** After the ticket: `setPanier([])`, the success message, the reload
        `getArticles()` (whose rejection raises the alert instead), and the
        `finally`. */
    method FinishSale(db: Database, reloadFails: bool)
      modifies this
      ensures Valid()
      ensures panier == [] && message == SUCCESS_MESSAGE && !isPrinting
      ensures !reloadFails ==> articles == db.articles && alerts == old(alerts)
      ensures reloadFails ==> articles == old(articles) && alerts == old(alerts) + [ERROR_ALERT]
      ensures search == old(search) && shopInfo == old(shopInfo) && derniereVente == old(derniereVente)
    {
      panier, message, isPrinting := [], SUCCESS_MESSAGE, false;
      if reloadFails {
        alerts := alerts + [ERROR_ALERT];
      } else {
        articles := db.articles;
      }
    }
  }

  /** What the database holds after the two awaited calls of a checkout:
      the sale, stamped with the locale date-and-time and carrying the
      cart's lines and total, is added unless saving rejects; the stock is
      decremented by the cart only when both calls succeed. */
  ghost predicate Recorded(arts0: seq<Article>, ventes0: seq<Vente>, next0: int,
                           arts: seq<Article>, ventes: seq<Vente>, next: int,
                           cart: seq<CartLine>, clock: Clock, fault: DbFault)
  {
    (if fault == SaveFails then ventes == ventes0 && next == next0
     else ventes == ventes0 + [Vente(next0, clock.dateTimeText, clock.timeText, cart, LinesTotal(cart))] &&
          next == next0 + 1) &&
    (if fault == SaveFails || fault == StockFails then arts == arts0
     else arts == StockAfterSale(arts0, cart))
  }

  /** `saveVente` then `updateStockApresVente`, each of which may reject;
      `recorded` tells whether both succeeded. */
  method RecordSale(db: Database, cart: seq<CartLine>, clock: Clock, fault: DbFault) returns (recorded: bool)
    requires db.Valid()
    modifies db
    ensures db.Valid()
    ensures recorded <==> fault != SaveFails && fault != StockFails
    ensures Recorded(old(db.articles), old(db.ventes), old(db.nextVenteId), db.articles, db.ventes, db.nextVenteId,
                     cart, clock, fault)
    ensures db.settings == old(db.settings)
  {
    if fault == SaveFails {
      return false;
    }
    var _ := db.SaveVente(VenteData(clock.dateTimeText, clock.timeText, cart, LinesTotal(cart)));
    if fault == StockFails {
      return false;
    }
    db.UpdateStockApresVente(cart);
    return true;
  }

  /** The ticket went out on `path`, `written` being the chunks the printer
      received: Bluetooth exactly when every chunk was written and the
      printer then let go, the system dialog otherwise. */
  predicate Sent(chunks: seq<seq<byte>>, bt: BtOutcome, path: PrintPath, written: seq<seq<byte>>) {
    written <= chunks &&
    (path == Bluetooth <==> bt.Works? || (bt.WriteFails? && bt.at >= |chunks|)) &&
    (path == Bluetooth ==> written == chunks) &&
    (bt.NoPrinter? ==> written == [])
  }

  /** The inner `try`: `printViaBluetooth(panier, shopInfo)`, and the system
      print dialog when it throws. */
  method SendTicket(nfd: string -> string, cart: seq<CartLine>, shop: Option<Settings>, bt: BtOutcome)
    returns (path: PrintPath, written: seq<seq<byte>>)
    ensures Sent(TicketChunks(nfd, cart, shop), bt, path, written)
  {
    var ok;
    written, ok := PrintViaBluetooth(nfd, cart, shop, bt);
    path := if ok then Bluetooth else SystemPrint;
  }
}
