/** lib/thermalPrint.ts: reducing text to printable ASCII, laying out the
    ESC/POS ticket for a cart, encoding it and writing it to the printer in
    20-byte chunks. The Bluetooth device is represented by the outcome it
    produces; NFD normalisation is the parameter `nfd`. */
module ThermalPrint {
  import opened Wrappers
  import opened Seqs
  import opened Text
  import opened Records

  // ---------------------------------------------------------------------
  // cleanForPrint
  // ---------------------------------------------------------------------

  /** The Unicode block U+0300..U+036F of combining diacritical marks. */
  predicate IsCombiningMark(c: char) {
    0x300 <= c as int <= 0x36F
  }

  /** `.replace(/[̀-ͯ]/g, "")`. */
  function StripCombining(s: string): string {
    Filter(s, c => !IsCombiningMark(c))
  }

  /** `.replace(/\s/g, ' ')`. */
  function SpacesForWhitespace(s: string): (r: string)
    ensures |r| == |s|
  {
    seq(|s|, i requires 0 <= i < |s| => if IsJsWhitespace(s[i]) then ' ' else s[i])
  }

  /** `.replace(/[^\x00-\x7F]/g, "")`. */
  function StripNonAscii(s: string): string {
    Filter(s, IsAsciiChar)
  }

  /** The three replacements, applied to the normalised text. */
  function CleanChars(u: string): string {
    StripNonAscii(SpacesForWhitespace(StripCombining(u)))
  }

  /** ASCII in which the only white space is the blank. */
  predicate Printable(s: string) {
    IsAscii(s) && forall i :: 0 <= i < |s| ==> IsJsWhitespace(s[i]) ==> s[i] == ' '
  }

  /** `cleanForPrint(text)`: empty text gives the empty string; anything else
      is normalised, stripped of combining marks, has each white-space
      character replaced by one blank and every non-ASCII character dropped. */
  function CleanForPrint(nfd: string -> string, text: string): (r: string)
    ensures text == "" ==> r == ""
    ensures Printable(r)
  {
    if text == "" then "" else
      var u := nfd(text);
      var m := SpacesForWhitespace(StripCombining(u));
      var r := StripNonAscii(m);
      FilterMembers(m, IsAsciiChar);
      assert forall i :: 0 <= i < |r| ==> r[i] in m;
      r
  }

  /** What one normalised character becomes: nothing for a combining mark,
      a blank for white space, itself for other ASCII, nothing otherwise. */
  function CharImage(c: char): string {
    if IsCombiningMark(c) then ""
    else if IsJsWhitespace(c) then " "
    else if IsAsciiChar(c) then [c]
    else ""
  }

  /** The character-at-a-time reading of cleanForPrint. */
  function Images(u: string): string {
    if u == [] then [] else CharImage(u[0]) + Images(u[1..])
  }

  lemma SpacesAppend(a: string, b: string)
    ensures SpacesForWhitespace(a + b) == SpacesForWhitespace(a) + SpacesForWhitespace(b)
  {
  }

  lemma CleanCharsAppend(a: string, b: string)
    ensures CleanChars(a + b) == CleanChars(a) + CleanChars(b)
  {
    FilterAppend(a, b, c => !IsCombiningMark(c));
    SpacesAppend(StripCombining(a), StripCombining(b));
    FilterAppend(SpacesForWhitespace(StripCombining(a)), SpacesForWhitespace(StripCombining(b)), IsAsciiChar);
  }

  lemma CleanCharsSingle(c: char)
    ensures CleanChars([c]) == CharImage(c)
  {
    assert [c][1..] == [];
    if !IsCombiningMark(c) {
      assert StripCombining([c]) == [c];
      var w := if IsJsWhitespace(c) then ' ' else c;
      assert SpacesForWhitespace([c]) == [w];
      assert StripNonAscii([w]) == if IsAsciiChar(w) then [w] else [];
    } else {
      assert StripCombining([c]) == [];
      assert SpacesForWhitespace([]) == [];
    }
  }

  /** cleanForPrint works character by character: its output is the
      concatenation of the images of the normalised characters. */
  lemma {:induction false} CleanCharwise(nfd: string -> string, text: string)
    requires text != ""
    ensures CleanForPrint(nfd, text) == Images(nfd(text))
  {
    ImagesAgree(nfd(text));
  }

  lemma {:induction false} ImagesAgree(u: string)
    ensures CleanChars(u) == Images(u)
  {
    if u == [] {
      assert StripCombining([]) == [];
      assert SpacesForWhitespace([]) == [];
    } else {
      assert u == [u[0]] + u[1..];
      CleanCharsAppend([u[0]], u[1..]);
      CleanCharsSingle(u[0]);
      ImagesAgree(u[1..]);
    }
  }

  /** NFD leaves ASCII text as it is. */
  ghost predicate FixesAscii(nfd: string -> string) {
    forall s :: IsAscii(s) ==> nfd(s) == s
  }

  /** Printable text passes through cleanForPrint unchanged. */
  lemma CleanKeepsPrintable(nfd: string -> string, s: string)
    requires FixesAscii(nfd) && Printable(s)
    ensures CleanForPrint(nfd, s) == s
  {
    if s != "" {
      assert nfd(s) == s;
      FilterAll(s, c => !IsCombiningMark(c));
      assert SpacesForWhitespace(s) == s;
      FilterAll(s, IsAsciiChar);
    }
  }

  /** cleanForPrint is idempotent. */
  lemma CleanIdempotent(nfd: string -> string, text: string)
    requires FixesAscii(nfd)
    ensures CleanForPrint(nfd, CleanForPrint(nfd, text)) == CleanForPrint(nfd, text)
  {
    CleanKeepsPrintable(nfd, CleanForPrint(nfd, text));
  }

  // ---------------------------------------------------------------------
  // Item rows
  // ---------------------------------------------------------------------

  /** The printable width of the paper, in characters. */
  const LINE_WIDTH: int := 32
  /** The longest article name printed. */
  const NAME_WIDTH: nat := 15

  /** `${item.qte}x `. */
  function QtyText(qte: int): string {
    IntToString(qte) + "x "
  }

  /** `${item.prix * item.qte} F`. */
  function PriceText(amount: int): string {
    IntToString(amount) + " F"
  }

  /** `cleanForPrint(item.nom).substring(0, 15)`. */
  function NameText(nfd: string -> string, nom: string): (r: string)
    ensures r <= CleanForPrint(nfd, nom)
    ensures |r| == Min(NAME_WIDTH, |CleanForPrint(nfd, nom)|)
  {
    Take(CleanForPrint(nfd, nom), NAME_WIDTH)
  }

  /** `Math.max(1, 32 - used)`. */
  function SpaceCount(used: int): nat {
    if LINE_WIDTH - used >= 1 then LINE_WIDTH - used else 1
  }

  /** `${qty}${name}${spaces}${price}`. */
  function Row(qty: string, name: string, price: string): string {
    qty + name + Repeat(' ', SpaceCount(|qty| + |name| + |price|)) + price
  }

  /** The row body for one cart line. */
  function RowBody(nfd: string -> string, line: CartLine): string {
    Row(QtyText(line.qte), NameText(nfd, line.art.nom), PriceText(LineAmount(line)))
  }

  /** A row opens with the quantity, then the name, at least one blank of
      padding, and ends with the price; it is exactly max(32, L + 1)
      characters long, L being the summed length of the three parts. */
  lemma RowShape(qty: string, name: string, price: string)
    ensures var r := Row(qty, name, price);
            qty <= r && r[|qty|..|qty| + |name|] == name && r[|r| - |price|..] == price &&
            (forall i :: |qty| + |name| <= i < |r| - |price| ==> r[i] == ' ') &&
            |r| - |price| - |qty| - |name| >= 1 &&
            |r| == Max(LINE_WIDTH, |qty| + |name| + |price| + 1)
  {
    var sp := Repeat(' ', SpaceCount(|qty| + |name| + |price|));
    var r := Row(qty, name, price);
    assert r == qty + name + sp + price;
    assert r[|r| - |price|..] == price;
    assert r[|qty|..|qty| + |name|] == name;
  }

  /** A row built from ASCII parts without newlines is ASCII without newlines. */
  lemma RowChars(qty: string, name: string, price: string)
    requires IsAscii(qty) && IsAscii(name) && IsAscii(price)
    requires '\n' !in qty && '\n' !in name && '\n' !in price
    ensures IsAscii(Row(qty, name, price)) && '\n' !in Row(qty, name, price)
  {
    var sp := Repeat(' ', SpaceCount(|qty| + |name| + |price|));
    var r := Row(qty, name, price);
    assert r == qty + name + sp + price;
    assert forall i :: 0 <= i < |r| ==> r[i] in qty || r[i] in name || r[i] in sp || r[i] in price;
  }

  /** The row of a cart line: quantity, name cut to 15 characters, padding
      and price, max(32, L + 1) characters, ASCII and without newline. */
  lemma RowLayout(nfd: string -> string, line: CartLine)
    ensures var qty, name, price := QtyText(line.qte), NameText(nfd, line.art.nom), PriceText(LineAmount(line));
            var r := RowBody(nfd, line);
            |name| <= NAME_WIDTH &&
            qty <= r && r[|qty|..|qty| + |name|] == name && r[|r| - |price|..] == price &&
            |r| - |price| - |qty| - |name| >= 1 &&
            |r| == Max(LINE_WIDTH, |qty| + |name| + |price| + 1)
    ensures '\n' !in RowBody(nfd, line) && IsAscii(RowBody(nfd, line))
  {
    var qty, name, price := QtyText(line.qte), NameText(nfd, line.art.nom), PriceText(LineAmount(line));
    RowShape(qty, name, price);
    NamePrintable(nfd, line.art.nom);
    NumbersPrintable(line.qte, LineAmount(line));
    RowChars(qty, name, price);
  }

  lemma NamePrintable(nfd: string -> string, nom: string)
    ensures IsAscii(NameText(nfd, nom)) && '\n' !in NameText(nfd, nom)
  {
    var name := NameText(nfd, nom);
    var c := CleanForPrint(nfd, nom);
    assert forall i :: 0 <= i < |name| ==> name[i] == c[i];
  }

  lemma NumbersPrintable(qte: int, amount: int)
    ensures IsAscii(QtyText(qte)) && '\n' !in QtyText(qte)
    ensures IsAscii(PriceText(amount)) && '\n' !in PriceText(amount)
  {
    AsciiAppend(IntToString(qte), "x ");
    AsciiAppend(IntToString(amount), " F");
  }

  /** Each body followed by a newline, in order. */
  function Lines(bodies: seq<string>): string {
    if bodies == [] then ""
    else Lines(bodies[..|bodies| - 1]) + bodies[|bodies| - 1] + "\n"
  }

  /** The row bodies of the cart, in cart order. */
  function RowBodies(nfd: string -> string, cart: seq<CartLine>): (r: seq<string>)
    ensures |r| == |cart|
  {
    seq(|cart|, i requires 0 <= i < |cart| => RowBody(nfd, cart[i]))
  }

  /** The rows section of the ticket: one row per cart line, in cart order. */
  function Rows(nfd: string -> string, cart: seq<CartLine>): string {
    Lines(RowBodies(nfd, cart))
  }

  // ---------------------------------------------------------------------
  // The ticket
  // ---------------------------------------------------------------------

  const ESC: char := '\U{1B}'
  const GS: char := '\U{1D}'

  /** ESC @: initialise the printer. */
  const INIT: string := [ESC, '@']
  /** ESC a n: centre (n = 1) or left-align (n = 0). */
  const CENTER: string := [ESC, 'a', '\U{01}']
  const LEFT: string := [ESC, 'a', '\U{00}']
  /** ESC E n: emphasis on (n = 1) or off (n = 0). */
  const BOLD_ON: string := [ESC, 'E', '\U{01}']
  const BOLD_OFF: string := [ESC, 'E', '\U{00}']
  /** GS ! n: double height (n = 1) or normal size (n = 0). */
  const DOUBLE_HEIGHT: string := [GS, '!', '\U{01}']
  const NORMAL_SIZE: string := [GS, '!', '\U{00}']

  /** The dashed rule: 32 dashes and a newline. */
  const RULE: string := "--------------------------------\n"

  const THANKS: string := "Merci de votre visite !\n"

  /** `shopInfo?.shopName || "MINIPAY"`. */
  function ShopNameOr(shop: Option<Settings>): string {
    if shop.Some? && shop.value.shopName != "" then shop.value.shopName else "MINIPAY"
  }

  /** `shopInfo?.address || "ABIDJAN"`. */
  function AddressOr(shop: Option<Settings>): string {
    if shop.Some? && shop.value.address != "" then shop.value.address else "ABIDJAN"
  }

  /** The shop name, centred, bold and double height (the size is reset after it). */
  function TitleLine(nfd: string -> string, shop: Option<Settings>): string {
    CENTER + BOLD_ON + DOUBLE_HEIGHT + CleanForPrint(nfd, ShopNameOr(shop)) + "\n" + NORMAL_SIZE
  }

  /** The address line. */
  function AddressLine(nfd: string -> string, shop: Option<Settings>): string {
    CleanForPrint(nfd, AddressOr(shop)) + "\n"
  }

  /** Left alignment and normal weight for the item rows. */
  const ROWS_START: string := LEFT + BOLD_OFF

  /** `TOTAL: ${total} F` and its newline. */
  function TotalLine(total: int): string {
    "TOTAL: " + IntToString(total) + " F\n"
  }

  /** The total, centred and bold. */
  function TotalBlock(total: int): string {
    CENTER + BOLD_ON + TotalLine(total)
  }

  /** Emphasis off, then a blank line. */
  const AFTER_TOTAL: string := BOLD_OFF + "\n"
  /** The thank-you line, centred. */
  const THANKS_LINE: string := CENTER + THANKS
  /** Four newlines that feed the paper out. */
  const FEED: string := "\n\n\n\n"

  /** The command string `printViaBluetooth` builds for a cart: the heading,
      a rule, one row per cart line, a rule, the total and the closing. */
  function Ticket(nfd: string -> string, cart: seq<CartLine>, shop: Option<Settings>): string {
    INIT + TitleLine(nfd, shop) + AddressLine(nfd, shop) + RULE + ROWS_START + Rows(nfd, cart) + RULE +
    TotalBlock(LinesTotal(cart)) + AFTER_TOTAL + THANKS_LINE + FEED
  }

  lemma LinesStep(head: string, bodies: seq<string>, i: int)
    requires 0 <= i < |bodies|
    ensures head + Lines(bodies[..i + 1]) == head + Lines(bodies[..i]) + (bodies[i] + "\n")
  {
    assert bodies[..i + 1][..i] == bodies[..i];
  }

  /** The row for one cart line, computed as the body of `cart.forEach`
      does. */
  method BuildRow(nfd: string -> string, item: CartLine) returns (row: string)
    ensures row == RowBody(nfd, item)
  {
    var qty := QtyText(item.qte);
    var price := PriceText(item.art.prix * item.qte);
    var name := Take(CleanForPrint(nfd, item.art.nom), NAME_WIDTH);
    var spaceCount := LINE_WIDTH - (|qty| + |name| + |price|);
    var spaces := Repeat(' ', if 1 >= spaceCount then 1 else spaceCount);
    row := qty + name + spaces + price;
  }

  /** The `cart.forEach` of the ticket construction: one row per cart line
      appended to `cmds`. */
  method AppendRows(nfd: string -> string, cart: seq<CartLine>, head: string) returns (cmds: string)
    ensures cmds == head + Rows(nfd, cart)
  {
    cmds := head;
    ghost var bodies := RowBodies(nfd, cart);
    assert head + Lines(bodies[..0]) == head;
    var i := 0;
    while i < |cart|
      invariant 0 <= i <= |cart|
      invariant cmds == head + Lines(bodies[..i])
    {
      var row := BuildRow(nfd, cart[i]);
      LinesStep(head, bodies, i);
      cmds := cmds + (row + "\n");
      i := i + 1;
    }
    assert bodies[..|cart|] == bodies;
  }

  /** The ticket construction as the source performs it: `cmds +=` piece by
      piece, the rows in between. */
  method BuildTicket(nfd: string -> string, cart: seq<CartLine>, shop: Option<Settings>) returns (cmds: string)
    ensures cmds == Ticket(nfd, cart, shop)
  {
    cmds := INIT;
    cmds := cmds + (CENTER + BOLD_ON + DOUBLE_HEIGHT + CleanForPrint(nfd, ShopNameOr(shop)) + "\n" + NORMAL_SIZE);
    cmds := cmds + (CleanForPrint(nfd, AddressOr(shop)) + "\n");
    cmds := cmds + RULE;
    cmds := cmds + (LEFT + BOLD_OFF);
    assert cmds == INIT + TitleLine(nfd, shop) + AddressLine(nfd, shop) + RULE + ROWS_START;
    cmds := AppendRows(nfd, cart, cmds);
    var total := LinesTotal(cart);
    cmds := cmds + RULE;
    cmds := cmds + (CENTER + BOLD_ON + ("TOTAL: " + IntToString(total) + " F\n"));
    cmds := cmds + (BOLD_OFF + "\n");
    cmds := cmds + (CENTER + THANKS);
    cmds := cmds + "\n\n\n\n";
  }

  lemma {:induction false} LinesAppend(a: seq<string>, b: seq<string>)
    ensures Lines(a + b) == Lines(a) + Lines(b)
    decreases |b|
  {
    if b == [] {
      assert a + b == a;
    } else {
      var init := b[..|b| - 1];
      assert (a + b)[..|a + b| - 1] == a + init;
      assert (a + b)[|a + b| - 1] == b[|b| - 1];
      LinesAppend(a, init);
    }
  }

  /** Split on newlines, the bodies joined by Lines come back one by one,
      followed by the empty text after the last newline. */
  lemma {:induction false} LinesSplit(bodies: seq<string>)
    requires forall i :: 0 <= i < |bodies| ==> '\n' !in bodies[i]
    ensures Split(Lines(bodies), '\n') == bodies + [""]
  {
    if bodies == [] {
      assert '\n' !in "";
    } else {
      var rest := bodies[1..];
      assert bodies == [bodies[0]] + rest;
      LinesAppend([bodies[0]], rest);
      assert [bodies[0]][..0] == [];
      assert Lines([bodies[0]]) == bodies[0] + "\n";
      SplitPrefixed(bodies[0], '\n', Lines(rest));
      LinesSplit(rest);
    }
  }

  /** Split on newlines, the rows section gives back exactly one row body
      per cart line, in cart order, and nothing else. */
  lemma RowsSplit(nfd: string -> string, cart: seq<CartLine>)
    ensures var parts := Split(Rows(nfd, cart), '\n');
            |parts| == |cart| + 1 &&
            (forall i :: 0 <= i < |cart| ==> parts[i] == RowBody(nfd, cart[i])) &&
            parts[|cart|] == ""
  {
    var bodies := RowBodies(nfd, cart);
    forall i | 0 <= i < |bodies|
      ensures '\n' !in bodies[i]
    {
      RowLayout(nfd, cart[i]);
    }
    LinesSplit(bodies);
  }

  lemma {:induction false} LinesAscii(bodies: seq<string>)
    requires forall i :: 0 <= i < |bodies| ==> IsAscii(bodies[i])
    ensures IsAscii(Lines(bodies))
  {
    if bodies != [] {
      var init := bodies[..|bodies| - 1];
      LinesAscii(init);
      AsciiAppend(Lines(init), bodies[|bodies| - 1]);
      AsciiAppend(Lines(init) + bodies[|bodies| - 1], "\n");
    }
  }

  /** The number printed on the total line reads back as the total. */
  lemma TotalLineReadsBack(total: int)
    ensures var line := TotalLine(total);
            line[..7] == "TOTAL: " && ParseIntJs(line[7..]) == Some(total)
  {
    ParseIntOfIntToString(total, " F\n");
    assert TotalLine(total)[7..] == IntToString(total) + " F\n";
  }

  lemma PrefixOfAppend(p: string, a: string, b: string)
    requires p <= a
    ensures p <= a + b
  {
    assert (a + b)[..|a|] == a;
  }

  lemma SuffixOfAppend(w: string, a: string)
    ensures |a| <= |w + a| && (w + a)[|w + a| - |a|..] == a
  {
  }

  /** The ticket opens with printer initialisation and the shop-name line. */
  lemma TicketStart(nfd: string -> string, cart: seq<CartLine>, shop: Option<Settings>)
    ensures INIT + TitleLine(nfd, shop) <= Ticket(nfd, cart, shop)
  {
    var p := INIT + TitleLine(nfd, shop);
    var a := p + AddressLine(nfd, shop);
    PrefixOfAppend(p, p, AddressLine(nfd, shop));
    var b := a + RULE;
    PrefixOfAppend(p, a, RULE);
    var c := b + ROWS_START;
    PrefixOfAppend(p, b, ROWS_START);
    var d := c + Rows(nfd, cart);
    PrefixOfAppend(p, c, Rows(nfd, cart));
    var e := d + RULE;
    PrefixOfAppend(p, d, RULE);
    var f := e + TotalBlock(LinesTotal(cart));
    PrefixOfAppend(p, e, TotalBlock(LinesTotal(cart)));
    var g := f + AFTER_TOTAL;
    PrefixOfAppend(p, f, AFTER_TOTAL);
    var h := g + THANKS_LINE;
    PrefixOfAppend(p, g, THANKS_LINE);
    PrefixOfAppend(p, h, FEED);
  }

  lemma Assoc<T>(a: seq<T>, b: seq<T>, c: seq<T>)
    ensures (a + b) + c == a + (b + c)
  {
  }

  /** The ticket closes with the thank-you line and four newlines. */
  lemma TicketEnd(nfd: string -> string, cart: seq<CartLine>, shop: Option<Settings>)
    ensures var t := Ticket(nfd, cart, shop);
            |THANKS_LINE + FEED| <= |t| && t[|t| - |THANKS_LINE + FEED|..] == THANKS_LINE + FEED
  {
    var g := INIT + TitleLine(nfd, shop) + AddressLine(nfd, shop) + RULE + ROWS_START + Rows(nfd, cart) + RULE +
             TotalBlock(LinesTotal(cart)) + AFTER_TOTAL;
    Assoc(g, THANKS_LINE, FEED);
    SuffixOfAppend(g, THANKS_LINE + FEED);
  }

  /** The dashes of the rule, without its newline. */
  const DASHES: string := "--------------------------------"

  /** Lines of a first body and more: the body, its newline, then the rest. */
  lemma LineThen(b0: string, rest: seq<string>, tail: string)
    ensures Lines([b0] + rest) + tail == b0 + ['\n'] + (Lines(rest) + tail)
  {
    LinesAppend([b0], rest);
    assert [b0][..0] == [];
  }

  /** Split on newlines, text made of whole lines gives back those lines and
      then the pieces of what follows them. */
  lemma {:induction false} SplitLinesThen(bodies: seq<string>, tail: string)
    requires forall i :: 0 <= i < |bodies| ==> '\n' !in bodies[i]
    ensures Split(Lines(bodies) + tail, '\n') == bodies + Split(tail, '\n')
  {
    if bodies == [] {
      SplitNoLines(tail);
    } else {
      SplitLinesThen(bodies[1..], tail);
      SplitLinesStep(bodies, tail);
    }
  }

  lemma SplitNoLines(tail: string)
    ensures Split(Lines([]) + tail, '\n') == [] + Split(tail, '\n')
  {
    var parts := Split(tail, '\n');
    assert Lines([]) + tail == tail;
    assert [] + parts == parts;
  }

  lemma SplitLinesStep(bodies: seq<string>, tail: string)
    requires bodies != [] && '\n' !in bodies[0]
    requires Split(Lines(bodies[1..]) + tail, '\n') == bodies[1..] + Split(tail, '\n')
    ensures Split(Lines(bodies) + tail, '\n') == bodies + Split(tail, '\n')
  {
    assert Split(Lines(bodies) + tail, '\n') == [bodies[0]] + Split(Lines(bodies[1..]) + tail, '\n') by {
      assert bodies == [bodies[0]] + bodies[1..];
      SplitFirstLine(bodies[0], bodies[1..], tail);
    }
    Regroup(bodies, Split(tail, '\n'));
  }

  lemma Regroup<T>(xs: seq<T>, ys: seq<T>)
    requires xs != []
    ensures [xs[0]] + (xs[1..] + ys) == xs + ys
  {
    assert xs == [xs[0]] + xs[1..];
  }

  /** Split on newlines, the first line comes off on its own. */
  lemma SplitFirstLine(b0: string, rest: seq<string>, tail: string)
    requires '\n' !in b0
    ensures Split(Lines([b0] + rest) + tail, '\n') == [b0] + Split(Lines(rest) + tail, '\n')
  {
    LineThen(b0, rest, tail);
    SplitPrefixed(b0, '\n', Lines(rest) + tail);
  }

  /** The printed total line, without its newline. */
  function TotalText(total: int): (r: string)
    ensures '\n' !in r
  {
    CENTER + BOLD_ON + "TOTAL: " + IntToString(total) + " F"
  }

  lemma Lines3(x: string, y: string, z: string)
    ensures Lines([x, y, z]) == x + "\n" + y + "\n" + z + "\n"
  {
    assert [x][..0] == [];
    assert Lines([x]) == x + "\n";
    assert [x, y][..1] == [x];
    assert Lines([x, y]) == Lines([x]) + y + "\n";
    assert [x, y, z][..2] == [x, y];
    assert Lines([x, y, z]) == Lines([x, y]) + z + "\n";
  }

  /** Regrouping the heading: the size reset moves from the end of the name
      line to the start of the address line. */
  lemma HeadingShape(init: string, codes: string, name: string, reset: string, place: string, dashes: string)
    ensures init + (codes + name + "\n" + reset) + (place + "\n") + (dashes + "\n") ==
            (init + codes + name) + "\n" + (reset + place) + "\n" + dashes + "\n"
  {
  }

  /** The shop name line: the codes that open it, then the cleaned name. */
  function NameLine(nfd: string -> string, shop: Option<Settings>): (r: string)
    ensures '\n' !in r
  {
    var name := CleanForPrint(nfd, ShopNameOr(shop));
    assert ' ' == ' ' && forall i :: 0 <= i < |name| ==> name[i] != '\n';
    INIT + CENTER + BOLD_ON + DOUBLE_HEIGHT + name
  }

  /** The address line: the code that resets the size, then the cleaned
      address. */
  function PlaceLine(nfd: string -> string, shop: Option<Settings>): (r: string)
    ensures '\n' !in r
  {
    var place := CleanForPrint(nfd, AddressOr(shop));
    assert forall i :: 0 <= i < |place| ==> place[i] != '\n';
    NORMAL_SIZE + place
  }

  /** The heading of the ticket, as lines: the shop name, the address and
      the first rule. */
  lemma HeadingLines(nfd: string -> string, shop: Option<Settings>)
    ensures INIT + TitleLine(nfd, shop) + AddressLine(nfd, shop) + RULE ==
            Lines([NameLine(nfd, shop), PlaceLine(nfd, shop), DASHES])
  {
    HeadingOf(CleanForPrint(nfd, ShopNameOr(shop)), CleanForPrint(nfd, AddressOr(shop)));
  }

  lemma HeadingOf(name: string, place: string)
    ensures INIT + (CENTER + BOLD_ON + DOUBLE_HEIGHT + name + "\n" + NORMAL_SIZE) + (place + "\n") + RULE ==
            Lines([INIT + CENTER + BOLD_ON + DOUBLE_HEIGHT + name, NORMAL_SIZE + place, DASHES])
  {
    var codes := CENTER + BOLD_ON + DOUBLE_HEIGHT;
    assert RULE == DASHES + "\n";
    assert INIT + CENTER + BOLD_ON + DOUBLE_HEIGHT + name == INIT + codes + name;
    HeadingShape(INIT, codes, name, NORMAL_SIZE, place, DASHES);
    Lines3(INIT + codes + name, NORMAL_SIZE + place, DASHES);
  }

  /** The rows and the second rule, as lines. */
  lemma RowsThenRule(nfd: string -> string, cart: seq<CartLine>)
    ensures Rows(nfd, cart) + RULE == Lines(RowBodies(nfd, cart) + [DASHES])
  {
    LinesAppend(RowBodies(nfd, cart), [DASHES]);
    assert [DASHES][..0] == [];
  }

  /** The total block is the total line and its newline. */
  lemma TotalBlockLine(total: int)
    ensures TotalBlock(total) == TotalText(total) + ['\n']
  {
  }

  /** Regrouping the ticket around its middle part. */
  lemma TicketShape(head: string, start: string, rows: string, rule: string, total: string, after: string, thanks: string, feed: string)
    ensures head + start + rows + rule + total + after + thanks + feed ==
            head + (start + (rows + rule) + (total + (after + thanks + feed)))
  {
  }

  /** The ticket as the heading lines followed by the rest. */
  lemma TicketAsLines(nfd: string -> string, cart: seq<CartLine>, shop: Option<Settings>)
    ensures Ticket(nfd, cart, shop) ==
            Lines([NameLine(nfd, shop), PlaceLine(nfd, shop), DASHES]) +
            (ROWS_START + Lines(RowBodies(nfd, cart) + [DASHES]) +
             (TotalText(LinesTotal(cart)) + ['\n'] + (AFTER_TOTAL + THANKS_LINE + FEED)))
  {
    var head := INIT + TitleLine(nfd, shop) + AddressLine(nfd, shop) + RULE;
    var total := TotalBlock(LinesTotal(cart));
    assert Ticket(nfd, cart, shop) ==
           head + (ROWS_START + (Rows(nfd, cart) + RULE) + (total + (AFTER_TOTAL + THANKS_LINE + FEED))) by {
      TicketShape(head, ROWS_START, Rows(nfd, cart), RULE, total, AFTER_TOTAL, THANKS_LINE, FEED);
    }
    HeadingLines(nfd, shop);
    RowsThenRule(nfd, cart);
    TotalBlockLine(LinesTotal(cart));
  }

  /** A prefix without newline joins the first line. */
  lemma PrefixFirstLine(p: string, l: string, t: string, m0: string, x: string)
    requires l + t == m0 + ['\n'] + x
    ensures p + l + t == (p + m0) + ['\n'] + x
  {
    assert p + l + t == p + (l + t);
  }

  /** The middle of the ticket: the first line carries the left-align codes,
      the others stand alone, and the total follows. */
  lemma MiddleLines(middle: seq<string>, tail: string)
    requires |middle| >= 1
    requires forall i :: 0 <= i < |middle| ==> '\n' !in middle[i]
    ensures Split(ROWS_START + Lines(middle) + tail, '\n') == [ROWS_START + middle[0]] + middle[1..] + Split(tail, '\n')
  {
    var rest := middle[1..];
    var more := Lines(rest) + tail;
    assert Lines(middle) + tail == middle[0] + ['\n'] + more by {
      assert middle == [middle[0]] + rest;
      LineThen(middle[0], rest, tail);
    }
    PrefixFirstLine(ROWS_START, Lines(middle), tail, middle[0], more);
    assert '\n' !in ROWS_START + middle[0] by {
      assert forall i :: 0 <= i < |ROWS_START| ==> ROWS_START[i] != '\n';
    }
    assert Split(ROWS_START + Lines(middle) + tail, '\n') == [ROWS_START + middle[0]] + Split(more, '\n') by {
      SplitPrefixed(ROWS_START + middle[0], '\n', more);
    }
    assert Split(more, '\n') == rest + Split(tail, '\n') by {
      SplitLinesThen(rest, tail);
    }
    Assoc([ROWS_START + middle[0]], rest, Split(tail, '\n'));
  }

  /** The rule without its newline holds no newline. */
  lemma DashesLine()
    ensures '\n' !in DASHES && RULE == DASHES + "\n"
  {
    assert forall j :: 0 <= j < |DASHES| ==> DASHES[j] == '-';
  }

  /** No row body and no rule holds a newline. */
  lemma MiddleNoNewline(nfd: string -> string, cart: seq<CartLine>)
    ensures var middle := RowBodies(nfd, cart) + [DASHES];
            forall i :: 0 <= i < |middle| ==> '\n' !in middle[i]
  {
    var middle := RowBodies(nfd, cart) + [DASHES];
    DashesLine();
    forall i | 0 <= i < |middle|
      ensures '\n' !in middle[i]
    {
      if i < |cart| {
        RowLayout(nfd, cart[i]);
      }
    }
  }

  /** Text laid out as three heading lines, a block of lines whose first
      carries the left-align codes, and a last line, splits into exactly
      those lines in that order. */
  lemma LinesLayout(t: string, heading: seq<string>, middle: seq<string>, total: string, after: string)
    requires |heading| == 3 && |middle| >= 1
    requires forall i :: 0 <= i < |heading| ==> '\n' !in heading[i]
    requires forall i :: 0 <= i < |middle| ==> '\n' !in middle[i]
    requires '\n' !in total
    requires t == Lines(heading) + (ROWS_START + Lines(middle) + (total + ['\n'] + after))
    ensures var parts := Split(t, '\n');
            |parts| > |middle| + 3 && parts[..3] == heading && parts[3] == ROWS_START + middle[0] &&
            (forall i :: 1 <= i < |middle| ==> middle[i] == parts[3 + i]) &&
            parts[3 + |middle|] == total
  {
    var tail := total + ['\n'] + after;
    var body := ROWS_START + Lines(middle) + tail;
    assert Split(t, '\n') == heading + Split(body, '\n') by {
      SplitLinesThen(heading, body);
    }
    assert Split(body, '\n') == [ROWS_START + middle[0]] + middle[1..] + Split(tail, '\n') by {
      MiddleLines(middle, tail);
    }
    assert Split(tail, '\n')[0] == total by {
      SplitPrefixed(total, '\n', after);
    }
    PartsLayout(Split(t, '\n'), heading, middle, Split(tail, '\n'));
  }

  /** Where the pieces land once the lines are put together. */
  lemma PartsLayout(parts: seq<string>, heading: seq<string>, middle: seq<string>, after: seq<string>)
    requires |heading| == 3 && |middle| >= 1 && after != []
    requires parts == heading + ([ROWS_START + middle[0]] + middle[1..] + after)
    ensures |parts| == |middle| + 3 + |after|
    ensures parts[..3] == heading && parts[3] == ROWS_START + middle[0] && parts[3 + |middle|] == after[0]
    ensures forall i :: 1 <= i < |middle| ==> middle[i] == parts[3 + i]
  {
    forall i | 1 <= i < |middle|
      ensures middle[i] == parts[3 + i]
    {
      assert middle[1..][i - 1] == middle[i];
    }
  }

  /** The ticket meets the layout's conditions: its heading lines, its row
      bodies and its total line hold no newline, and it is put together from
      them. */
  lemma TicketLayoutReady(nfd: string -> string, cart: seq<CartLine>, shop: Option<Settings>)
    ensures var heading, middle := [NameLine(nfd, shop), PlaceLine(nfd, shop), DASHES], RowBodies(nfd, cart) + [DASHES];
            (forall i :: 0 <= i < |heading| ==> '\n' !in heading[i]) &&
            (forall i :: 0 <= i < |middle| ==> '\n' !in middle[i]) &&
            Ticket(nfd, cart, shop) ==
            Lines(heading) + (ROWS_START + Lines(middle) + (TotalText(LinesTotal(cart)) + ['\n'] + (AFTER_TOTAL + THANKS_LINE + FEED)))
  {
    DashesLine();
    MiddleNoNewline(nfd, cart);
    TicketAsLines(nfd, cart, shop);
  }

  /** Split on newlines, the ticket opens with the shop name line, the
      address line and a rule. */
  lemma TicketHeading(nfd: string -> string, cart: seq<CartLine>, shop: Option<Settings>)
    ensures |Split(Ticket(nfd, cart, shop), '\n')| > |cart| + 4
    ensures Split(Ticket(nfd, cart, shop), '\n')[..3] == [NameLine(nfd, shop), PlaceLine(nfd, shop), DASHES]
  {
    TicketLayoutReady(nfd, cart, shop);
    LinesLayout(Ticket(nfd, cart, shop), [NameLine(nfd, shop), PlaceLine(nfd, shop), DASHES], RowBodies(nfd, cart) + [DASHES],
                TotalText(LinesTotal(cart)), AFTER_TOTAL + THANKS_LINE + FEED);
  }

  /** Split on newlines, after the first rule the ticket has exactly one
      line per cart line, in cart order, and then the second rule; the first
      of these lines carries the left-align codes. */
  lemma TicketRows(nfd: string -> string, cart: seq<CartLine>, shop: Option<Settings>)
    ensures |Split(Ticket(nfd, cart, shop), '\n')| > |cart| + 4
    ensures var parts, middle := Split(Ticket(nfd, cart, shop), '\n'), RowBodies(nfd, cart) + [DASHES];
            parts[3] == ROWS_START + middle[0] &&
            forall i :: 1 <= i < |middle| ==> middle[i] == parts[3 + i]
  {
    TicketLayoutReady(nfd, cart, shop);
    LinesLayout(Ticket(nfd, cart, shop), [NameLine(nfd, shop), PlaceLine(nfd, shop), DASHES], RowBodies(nfd, cart) + [DASHES],
                TotalText(LinesTotal(cart)), AFTER_TOTAL + THANKS_LINE + FEED);
  }

  /** Split on newlines, the line after the second rule is the total. */
  lemma TicketTotal(nfd: string -> string, cart: seq<CartLine>, shop: Option<Settings>)
    ensures |Split(Ticket(nfd, cart, shop), '\n')| > |cart| + 4
    ensures Split(Ticket(nfd, cart, shop), '\n')[4 + |cart|] == TotalText(LinesTotal(cart))
  {
    TicketLayoutReady(nfd, cart, shop);
    LinesLayout(Ticket(nfd, cart, shop), [NameLine(nfd, shop), PlaceLine(nfd, shop), DASHES], RowBodies(nfd, cart) + [DASHES],
                TotalText(LinesTotal(cart)), AFTER_TOTAL + THANKS_LINE + FEED);
  }

  /** A missing or empty shop name prints MINIPAY; any other is printed. */
  lemma ShopNameFallback(nfd: string -> string, shop: Option<Settings>)
    requires FixesAscii(nfd)
    ensures (shop.None? || shop.value.shopName == "") ==> CleanForPrint(nfd, ShopNameOr(shop)) == "MINIPAY"
    ensures shop.Some? && shop.value.shopName != "" ==> ShopNameOr(shop) == shop.value.shopName
  {
    assert Printable("MINIPAY");
    CleanKeepsPrintable(nfd, "MINIPAY");
  }

  /** A missing or empty address prints ABIDJAN; any other is printed. */
  lemma AddressFallback(nfd: string -> string, shop: Option<Settings>)
    requires FixesAscii(nfd)
    ensures (shop.None? || shop.value.address == "") ==> CleanForPrint(nfd, AddressOr(shop)) == "ABIDJAN"
    ensures shop.Some? && shop.value.address != "" ==> AddressOr(shop) == shop.value.address
  {
    assert Printable("ABIDJAN");
    CleanKeepsPrintable(nfd, "ABIDJAN");
  }

  lemma RowsAscii(nfd: string -> string, cart: seq<CartLine>)
    ensures IsAscii(Rows(nfd, cart))
  {
    var bodies := RowBodies(nfd, cart);
    forall i | 0 <= i < |bodies|
      ensures IsAscii(bodies[i])
    {
      RowLayout(nfd, cart[i]);
    }
    LinesAscii(bodies);
  }

  lemma ConstantsAscii()
    ensures IsAscii(INIT) && IsAscii(CENTER) && IsAscii(LEFT) && IsAscii(BOLD_ON) && IsAscii(BOLD_OFF)
    ensures IsAscii(DOUBLE_HEIGHT) && IsAscii(NORMAL_SIZE) && IsAscii(RULE) && IsAscii(ROWS_START)
    ensures IsAscii(AFTER_TOTAL) && IsAscii(THANKS_LINE) && IsAscii(FEED) && IsAscii("\n")
    ensures IsAscii("TOTAL: ") && IsAscii(" F\n")
  {
  }

  lemma TitleAscii(nfd: string -> string, shop: Option<Settings>)
    ensures IsAscii(TitleLine(nfd, shop)) && IsAscii(AddressLine(nfd, shop))
  {
    ConstantsAscii();
    var name := CleanForPrint(nfd, ShopNameOr(shop));
    AsciiAppend(CENTER, BOLD_ON);
    AsciiAppend(CENTER + BOLD_ON, DOUBLE_HEIGHT);
    AsciiAppend(CENTER + BOLD_ON + DOUBLE_HEIGHT, name);
    AsciiAppend(CENTER + BOLD_ON + DOUBLE_HEIGHT + name, "\n");
    AsciiAppend(CENTER + BOLD_ON + DOUBLE_HEIGHT + name + "\n", NORMAL_SIZE);
    AsciiAppend(CleanForPrint(nfd, AddressOr(shop)), "\n");
  }

  lemma TotalAscii(total: int)
    ensures IsAscii(TotalBlock(total))
  {
    ConstantsAscii();
    AsciiAppend("TOTAL: ", IntToString(total));
    AsciiAppend("TOTAL: " + IntToString(total), " F\n");
    AsciiAppend(CENTER, BOLD_ON);
    AsciiAppend(CENTER + BOLD_ON, TotalLine(total));
  }

  /** The whole ticket is ASCII, so its UTF-8 encoding has one byte per
      character, each equal to the character's code. */
  lemma TicketBytes(nfd: string -> string, cart: seq<CartLine>, shop: Option<Settings>)
    ensures var t := Ticket(nfd, cart, shop);
            IsAscii(t) && |Utf8Encode(t)| == |t| &&
            forall i :: 0 <= i < |t| ==> Utf8Encode(t)[i] as int == t[i] as int
  {
    ConstantsAscii();
    TitleAscii(nfd, shop);
    TotalAscii(LinesTotal(cart));
    RowsAscii(nfd, cart);
    var a := INIT + TitleLine(nfd, shop);
    AsciiAppend(INIT, TitleLine(nfd, shop));
    var b := a + AddressLine(nfd, shop);
    AsciiAppend(a, AddressLine(nfd, shop));
    var c := b + RULE;
    AsciiAppend(b, RULE);
    var d := c + ROWS_START;
    AsciiAppend(c, ROWS_START);
    var e := d + Rows(nfd, cart);
    AsciiAppend(d, Rows(nfd, cart));
    var f := e + RULE;
    AsciiAppend(e, RULE);
    var g := f + TotalBlock(LinesTotal(cart));
    AsciiAppend(f, TotalBlock(LinesTotal(cart)));
    var h := g + AFTER_TOTAL;
    AsciiAppend(g, AFTER_TOTAL);
    var k := h + THANKS_LINE;
    AsciiAppend(h, THANKS_LINE);
    AsciiAppend(k, FEED);
    var t := Ticket(nfd, cart, shop);
    assert t == k + FEED;
    Utf8EncodeAscii(t);
  }

  // ---------------------------------------------------------------------
  // Chunked writing
  // ---------------------------------------------------------------------

  /** The largest write the printer's characteristic accepts. */
  const CHUNK_SIZE: nat := 20

  /** `bytes.slice(i, i + 20)` for i = 0, 20, 40, ... while i < length. */
  function Chunks(bytes: seq<byte>): seq<seq<byte>>
    decreases |bytes|
  {
    if bytes == [] then []
    else if |bytes| <= CHUNK_SIZE then [bytes]
    else [bytes[..CHUNK_SIZE]] + Chunks(bytes[CHUNK_SIZE..])
  }

  /** The chunks of the encoded ticket, in write order. */
  function TicketChunks(nfd: string -> string, cart: seq<CartLine>, shop: Option<Settings>): seq<seq<byte>> {
    Chunks(Utf8Encode(Ticket(nfd, cart, shop)))
  }

  /** Every chunk has 1 to 20 bytes, all but the last exactly 20; there are
      ⌈n / 20⌉ of them, and written in order they give back the bytes. */
  lemma {:induction false} ChunksLayout(bytes: seq<byte>)
    ensures var c := Chunks(bytes);
            |c| == (|bytes| + CHUNK_SIZE - 1) / CHUNK_SIZE &&
            (forall k :: 0 <= k < |c| ==> 1 <= |c[k]| <= CHUNK_SIZE) &&
            (forall k :: 0 <= k < |c| - 1 ==> |c[k]| == CHUNK_SIZE) &&
            Flatten(c) == bytes
    decreases |bytes|
  {
    if bytes != [] && |bytes| > CHUNK_SIZE {
      var rest := bytes[CHUNK_SIZE..];
      ChunksLayout(rest);
      var c := Chunks(bytes);
      assert c[1..] == Chunks(rest);
      assert bytes == bytes[..CHUNK_SIZE] + rest;
    } else if bytes != [] {
      assert Chunks(bytes)[1..] == [];
      assert bytes + [] == bytes;
    }
  }

  /** How the Bluetooth exchange goes: no printer reached (chooser dismissed,
      connection, service or characteristic refused), the write of chunk
      number `at` rejected, the final disconnect failing, or every step
      succeeding. */
  datatype BtOutcome = NoPrinter | WriteFails(at: nat) | DisconnectFails | Works

  /** The chunks from offset i on: the slice at i, then the chunks after it. */
  lemma ChunksStep(bytes: seq<byte>, i: int)
    requires 0 <= i < |bytes|
    ensures Chunks(bytes[i..]) == [bytes[i..Min(i + CHUNK_SIZE, |bytes|)]] + Chunks(bytes[Min(i + CHUNK_SIZE, |bytes|)..])
  {
    var rest := bytes[i..];
    if |rest| > CHUNK_SIZE {
      assert rest[..CHUNK_SIZE] == bytes[i..i + CHUNK_SIZE];
      assert rest[CHUNK_SIZE..] == bytes[i + CHUNK_SIZE..];
    } else {
      assert rest == bytes[i..|bytes|];
      assert bytes[|bytes|..] == [];
    }
  }

  lemma PrefixOfWhole<T>(w: seq<T>, rest: seq<T>, all: seq<T>)
    requires w + rest == all
    ensures all[..|w|] == w && w <= all
  {
    assert all[..|w|] == (w + rest)[..|w|];
  }

  /** One chunk written: it moves from the chunks still to write to the
      chunks written. */
  lemma WriteStep(bytes: seq<byte>, i: int, written: seq<seq<byte>>, all: seq<seq<byte>>)
    requires 0 <= i < |bytes| && written + Chunks(bytes[i..]) == all
    ensures (written + [bytes[i..Min(i + CHUNK_SIZE, |bytes|)]]) + Chunks(bytes[Min(i + CHUNK_SIZE, |bytes|)..]) == all
  {
    ChunksStep(bytes, i);
    var chunk := bytes[i..Min(i + CHUNK_SIZE, |bytes|)];
    var rest := Chunks(bytes[Min(i + CHUNK_SIZE, |bytes|)..]);
    assert written + ([chunk] + rest) == (written + [chunk]) + rest;
  }

  /** The write loop: `writeValue(bytes.slice(i, i + 20))` for
      i = 0, 20, 40, ... `written` is what reached the printer; `ok` is false
      when a write is rejected. */
  method WriteChunks(bytes: seq<byte>, bt: BtOutcome) returns (written: seq<seq<byte>>, ok: bool)
    ensures written <= Chunks(bytes)
    ensures ok <==> !(bt.WriteFails? && bt.at < |Chunks(bytes)|)
    ensures ok ==> written == Chunks(bytes)
    ensures !ok ==> written == Chunks(bytes)[..bt.at]
  {
    ghost var all := Chunks(bytes);
    written := [];
    var i := 0;
    while i < |bytes|
      invariant 0 <= i && (i < |bytes| ==> i == CHUNK_SIZE * |written|)
      invariant written + Chunks(bytes[Min(i, |bytes|)..]) == all
      invariant bt.WriteFails? ==> |written| <= bt.at
    {
      var chunk := bytes[i..Min(i + CHUNK_SIZE, |bytes|)];
      assert bytes[Min(i, |bytes|)..] == bytes[i..];
      if bt.WriteFails? && bt.at == |written| {
        ChunksStep(bytes, i);
        PrefixOfWhole(written, Chunks(bytes[i..]), all);
        return written, false;
      }
      WriteStep(bytes, i, written, all);
      written := written + [chunk];
      i := i + CHUNK_SIZE;
    }
    assert bytes[Min(i, |bytes|)..] == [];
    assert written == all;
    ok := true;
  }

  /** `printViaBluetooth(cart, shopInfo)`: reach the printer, build the
      ticket, encode it, write it chunk after chunk, disconnect. `ok` is true
      when the call returns normally and false when it throws. */
  method PrintViaBluetooth(nfd: string -> string, cart: seq<CartLine>, shop: Option<Settings>, bt: BtOutcome)
    returns (written: seq<seq<byte>>, ok: bool)
    ensures written <= TicketChunks(nfd, cart, shop)
    ensures ok <==> bt.Works? || (bt.WriteFails? && bt.at >= |TicketChunks(nfd, cart, shop)|)
    ensures bt.NoPrinter? ==> written == []
    ensures bt.WriteFails? ==> written == TicketChunks(nfd, cart, shop)[..Min(bt.at, |TicketChunks(nfd, cart, shop)|)]
    ensures bt.Works? || bt.DisconnectFails? ==> written == TicketChunks(nfd, cart, shop)
  {
    if bt.NoPrinter? {
      return [], false;
    }
    var cmds := BuildTicket(nfd, cart, shop);
    var bytes := Utf8Encode(cmds);
    written, ok := WriteChunks(bytes, bt);
    if ok && bt.DisconnectFails? {
      ok := false;
    }
  }
}
