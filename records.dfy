/** The records kept in the three object stores of lib/db.ts, and the cart
    line the sales page builds from an article. Prices, quantities and stock
    are integers. */
module Records {
  import opened Seqs

  /** A catalogue article; `id` is its key in the articles store. */
  datatype Article = Article(id: int, nom: string, prix: int, categorie: string, stock: int)

  /** A cart line: the fields of the article it was added from (`{...art}`),
      frozen at that moment, plus the quantity `qte`. */
  datatype CartLine = CartLine(art: Article, qte: int)

  /** The shop profile stored under the key 'config'. */
  datatype Settings = Settings(shopName: string, address: string, phone: string)

  /** A sale as the checkout assembles it, before the store gives it a key. */
  datatype VenteData = VenteData(date: string, heure: string, articles: seq<CartLine>, total: int)

  /** A stored sale; `id` is its key in the sales store. */
  datatype Vente = Vente(id: int, date: string, heure: string, articles: seq<CartLine>, total: int)

  /** What one line costs: unit price times quantity. */
  function LineAmount(l: CartLine): int {
    l.art.prix * l.qte
  }

  /** `lines.reduce((acc, item) => acc + item.prix * item.qte, 0)`. */
  function LinesTotal(lines: seq<CartLine>): int {
    SumOf(lines, LineAmount)
  }
}
