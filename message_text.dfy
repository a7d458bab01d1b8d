/** The texts `handle_menu` sends: the cart listing (one dedented block per cart item, then
    `Total: ...`, joined by line breaks) and the caption of a product photo. */
module MessageText {
  import opened PyBuiltins
  import opened TextWrap
  import opened Shop

  /** The twelve spaces each template line starts with in the source. */
  const TemplateIndent: string := "            "

  // ---------------------------------------------------------------------------
  // Templates

  /** A line of a triple-quoted f-string template indented by `indent`: an empty line (None),
      or the indent followed by some text (Some). */
  function TemplateLine(indent: string, l: Option<string>): string {
    match l
    case None => ""
    case Some(f) => indent + f
  }

  function TemplateLines(indent: string, ls: seq<Option<string>>): (r: seq<string>)
    ensures |r| == |ls|
    ensures forall i :: 0 <= i < |r| ==> r[i] == TemplateLine(indent, ls[i])
  {
    if |ls| == 0 then [] else [TemplateLine(indent, ls[0])] + TemplateLines(indent, ls[1..])
  }

  /** The template's text: its lines joined by line breaks. */
  function TemplateText(indent: string, ls: seq<Option<string>>): string {
    Join(TemplateLines(indent, ls), "\n")
  }

  /** What a template line becomes once its indent is removed: its text, or "" when that text
      is only spaces and tabs. */
  function DedentedLine(l: Option<string>): string {
    match l
    case None => ""
    case Some(f) => NormalizeLine(f)
  }

  function DedentedLines(ls: seq<Option<string>>): (r: seq<string>)
    ensures |r| == |ls|
    ensures forall i :: 0 <= i < |r| ==> r[i] == DedentedLine(ls[i])
  {
    if |ls| == 0 then [] else [DedentedLine(ls[0])] + DedentedLines(ls[1..])
  }

  /** A template line whose text starts with a character other than a space or a tab. */
  predicate StartsWithText(l: Option<string>) {
    l.Some? && |l.value| > 0 && !IsIndentChar(l.value[0])
  }

  predicate HasNoLineBreak(l: Option<string>) {
    l.None? || '\n' !in l.value
  }

  /** A non-empty indent of spaces and tabs. */
  predicate IsIndent(indent: string) {
    indent != "" && AllIndent(indent)
  }

  lemma TemplateIndentIsIndent()
    ensures IsIndent(TemplateIndent) && '\n' !in TemplateIndent
  {
  }

  // ---------------------------------------------------------------------------
  // Cart listing

  /** The f-string template for one cart item: an empty first line, the name, description,
      unit price and quantity lines, and a last line holding only the indent. */
  function ItemTemplate(item: CartItem): seq<Option<string>> {
    [None, Some(item.name), Some(item.description), Some(item.unitPrice), Some(QuantityLine(item)), Some("")]
  }

  /** `f'{quantity_in_cart} pieces in cart for {total_product_price}'`. */
  function QuantityLine(item: CartItem): string {
    IntToString(item.quantity) + " pieces in cart for " + item.linePrice
  }

  /** `product_details_text`: the dedented template of one cart item. */
  function ItemBlock(item: CartItem): string {
    Dedent(TemplateText(TemplateIndent, ItemTemplate(item)))
  }

  /** The blocks of the items, in cart order. */
  function ItemBlocks(items: seq<CartItem>): (blocks: seq<string>)
    ensures |blocks| == |items|
  {
    if |items| == 0 then [] else ItemBlocks(items[..|items| - 1]) + [ItemBlock(items[|items| - 1])]
  }

  function TotalLine(total: string): string {
    "Total: " + total
  }

  /** `cart_total_info`: the item blocks in cart order, then the total line. */
  function CartLines(items: seq<CartItem>, total: string): (lines: seq<string>)
    ensures |lines| == |items| + 1 && lines[|items|] == "Total: " + total
  {
    ItemBlocks(items) + [TotalLine(total)]
  }

  /** `'\n'.join(cart_total_info)`. */
  function CartText(items: seq<CartItem>, total: string): string {
    Join(CartLines(items, total), "\n")
  }

  /** The loop of `handle_menu` that collects the blocks, the total line appended after it,
      and the join. */
  method RenderCartText(items: seq<CartItem>, total: string) returns (cartTotalInfo: seq<string>, text: string)
    ensures cartTotalInfo == CartLines(items, total)
    ensures text == Join(cartTotalInfo, "\n") == CartText(items, total)
  {
    cartTotalInfo := [];
    for k := 0 to |items|
      invariant cartTotalInfo == ItemBlocks(items[..k])
    {
      var item := items[k];
      var productDetailsText := ItemBlock(item);
      assert items[..k + 1][..k] == items[..k];
      cartTotalInfo := cartTotalInfo + [productDetailsText];
    }
    assert items[..|items|] == items;
    cartTotalInfo := cartTotalInfo + ["Total: " + total];
    text := Join(cartTotalInfo, "\n");
  }

  lemma {:induction false} ItemBlocksInOrder(items: seq<CartItem>)
    ensures |ItemBlocks(items)| == |items|
    ensures forall i :: 0 <= i < |items| ==> ItemBlocks(items)[i] == ItemBlock(items[i])
    decreases |items|
  {
    if |items| > 0 {
      var front := items[..|items| - 1];
      ItemBlocksInOrder(front);
      var blocks := ItemBlocks(items);
      forall i | 0 <= i < |items| - 1 ensures blocks[i] == ItemBlock(items[i]) {
        assert blocks[i] == ItemBlocks(front)[i];
        assert front[i] == items[i];
      }
    }
  }

  /** The cart lines are one block per item, in cart order, and then the total line. */
  lemma CartLinesInOrder(items: seq<CartItem>, total: string)
    ensures |CartLines(items, total)| == |items| + 1
    ensures forall i :: 0 <= i < |items| ==> CartLines(items, total)[i] == ItemBlock(items[i])
    ensures CartLines(items, total)[|items|] == "Total: " + total
  {
    ItemBlocksInOrder(items);
  }

  /** An empty cart is listed as the total line alone. */
  lemma EmptyCartText(total: string)
    ensures CartText([], total) == "Total: " + total
  {
    assert CartLines([], total) == [TotalLine(total)];
  }

  /** A non-empty cart is listed as its joined blocks, a line break, and the total line. */
  lemma CartTextEndsWithTotal(items: seq<CartItem>, total: string)
    requires |items| > 0
    ensures CartText(items, total) == Join(ItemBlocks(items), "\n") + "\n" + "Total: " + total
  {
    ListingSnoc(ItemBlocks(items), total);
  }

  lemma ListingSnoc(blocks: seq<string>, total: string)
    requires |blocks| > 0
    ensures Join(blocks + [TotalLine(total)], "\n") == Join(blocks, "\n") + "\n" + "Total: " + total
  {
    JoinSnoc(blocks, TotalLine(total), "\n");
  }

  // ---------------------------------------------------------------------------
  // dedent on a template

  lemma AllIndentAppend(p: string, f: string)
    requires AllIndent(p)
    ensures AllIndent(p + f) <==> AllIndent(f)
  {
    if AllIndent(p + f) {
      forall i | 0 <= i < |f| ensures IsIndentChar(f[i]) {
        assert f[i] == (p + f)[|p| + i];
      }
    }
  }

  lemma {:induction false} LeadingIndentOfIndented(p: string, x: string)
    requires AllIndent(p) && |x| > 0 && !IsIndentChar(x[0])
    ensures LeadingIndent(p + x) == p
    decreases |p|
  {
    if |p| > 0 {
      assert (p + x)[1..] == p[1..] + x;
      LeadingIndentOfIndented(p[1..], x);
      assert p == [p[0]] + p[1..];
    } else {
      assert p + x == x;
    }
  }

  /** One template line, normalised and stripped of its indent, is its dedented line; it is
      empty once normalised or starts with the indent. */
  lemma TemplateLineDedented(p: string, l: Option<string>)
    requires IsIndent(p)
    ensures RemoveMargin(NormalizeLine(TemplateLine(p, l)), p) == DedentedLine(l)
    ensures NormalizeLine(TemplateLine(p, l)) == "" || IsPrefix(p, TemplateLine(p, l))
  {
    if l.Some? {
      var f := l.value;
      AllIndentAppend(p, f);
      assert (p + f)[..|p|] == p;
      assert (p + f)[|p|..] == f;
    }
  }

  /** The template's lines, normalised and stripped of the indent, are its dedented lines. */
  lemma TemplateStripped(p: string, ls: seq<Option<string>>)
    requires IsIndent(p)
    ensures RemoveMarginAll(NormalizeLines(TemplateLines(p, ls)), p) == DedentedLines(ls)
  {
    var r := RemoveMarginAll(NormalizeLines(TemplateLines(p, ls)), p);
    forall i | 0 <= i < |ls| ensures r[i] == DedentedLines(ls)[i] {
      TemplateLineDedented(p, ls[i]);
    }
  }

  /** A template's lines hold no line break when neither the indent nor the texts do. */
  lemma TemplateLinesUnbroken(p: string, ls: seq<Option<string>>)
    requires '\n' !in p
    requires forall i :: 0 <= i < |ls| ==> HasNoLineBreak(ls[i])
    ensures forall i :: 0 <= i < |ls| ==> '\n' !in TemplateLines(p, ls)[i]
  {
  }

  /** Every template line is empty once normalised or starts with the indent. */
  lemma TemplateLinesIndented(p: string, ls: seq<Option<string>>)
    requires IsIndent(p)
    ensures forall i :: 0 <= i < |ls| ==>
      NormalizeLine(TemplateLines(p, ls)[i]) == "" || IsPrefix(p, TemplateLines(p, ls)[i])
  {
    forall i | 0 <= i < |ls|
      ensures NormalizeLine(TemplateLines(p, ls)[i]) == "" || IsPrefix(p, TemplateLines(p, ls)[i])
    {
      TemplateLineDedented(p, ls[i]);
    }
  }

  /** A template line whose text starts right after the indent is indented by exactly it. */
  lemma TemplateLineIndent(p: string, l: Option<string>)
    requires IsIndent(p) && StartsWithText(l)
    ensures !AllIndent(TemplateLine(p, l)) && LeadingIndent(TemplateLine(p, l)) == p
  {
    var x := l.value;
    LeadingIndentOfIndented(p, x);
    AllIndentAppend(p, x);
  }

  /** `dedent` of a template without line breaks, one of whose lines starts with text right
      after the indent: the margin is the indent, and each line becomes its dedented line. */
  lemma DedentTemplate(p: string, ls: seq<Option<string>>, k: nat)
    requires IsIndent(p) && '\n' !in p
    requires forall i :: 0 <= i < |ls| ==> HasNoLineBreak(ls[i])
    requires k < |ls| && StartsWithText(ls[k])
    ensures Dedent(TemplateText(p, ls)) == Join(DedentedLines(ls), "\n")
  {
    var raw := TemplateLines(p, ls);
    TemplateLinesUnbroken(p, ls);
    TemplateLinesIndented(p, ls);
    TemplateLineIndent(p, ls[k]);
    DedentWithMargin(raw, p, k);
    TemplateStripped(p, ls);
  }

  lemma DecimalStartsWithDigitOrMinus(i: int)
    ensures |IntToString(i)| > 0
    ensures IsDigit(IntToString(i)[0]) || IntToString(i)[0] == '-'
    ensures '\n' !in IntToString(i)
  {
  }

  /** The quantity line starts with a digit or a minus sign and holds no line break when the
      line price does not. */
  lemma QuantityLineStartsWithText(item: CartItem)
    requires '\n' !in item.linePrice
    ensures |QuantityLine(item)| > 0 && !IsIndentChar(QuantityLine(item)[0])
    ensures '\n' !in QuantityLine(item)
  {
    DecimalStartsWithDigitOrMinus(item.quantity);
    QuantitySuffix();
    assert QuantityLine(item)[0] == IntToString(item.quantity)[0];
  }

  lemma QuantitySuffix()
    ensures '\n' !in " pieces in cart for "
  {
  }

  /** The item template's lines hold no line break, and its quantity line starts with text. */
  lemma ItemTemplateUnbroken(item: CartItem)
    requires '\n' !in item.name && '\n' !in item.description
    requires '\n' !in item.unitPrice && '\n' !in item.linePrice
    ensures forall i :: 0 <= i < |ItemTemplate(item)| ==> HasNoLineBreak(ItemTemplate(item)[i])
    ensures StartsWithText(ItemTemplate(item)[4])
  {
    QuantityLineStartsWithText(item);
  }

  /** Dedented, the item template gives an empty line, the name, description, unit price and
      quantity lines, and an empty line. */
  lemma ItemDedentedLines(item: CartItem)
    requires '\n' !in item.linePrice
    ensures DedentedLines(ItemTemplate(item)) ==
      ["", NormalizeLine(item.name), NormalizeLine(item.description), NormalizeLine(item.unitPrice), QuantityLine(item), ""]
  {
    QuantityLineStartsWithText(item);
    var q := QuantityLine(item);
    assert !AllIndent(q);
    assert NormalizeLine(q) == q;
  }

  /** A cart block, for fields without line breaks: an empty line, the name, description and
      unit price (each emptied when it is only spaces and tabs), the quantity line, and an
      empty last line. */
  lemma ItemBlockLayout(item: CartItem)
    requires '\n' !in item.name && '\n' !in item.description
    requires '\n' !in item.unitPrice && '\n' !in item.linePrice
    ensures ItemBlock(item) ==
      Join(["", NormalizeLine(item.name), NormalizeLine(item.description), NormalizeLine(item.unitPrice), QuantityLine(item), ""], "\n")
  {
    ItemTemplateUnbroken(item);
    ItemDedentedLines(item);
    TemplateIndentIsIndent();
    DedentTemplate(TemplateIndent, ItemTemplate(item), 4);
  }

  // ---------------------------------------------------------------------------
  // Product caption

  function PriceLine(d: ProductDetails): string {
    d.price + " per one piece"
  }

  function StockLine(d: ProductDetails): string {
    d.stock + " pieces available on stock"
  }

  /** The caption template; each `\n` escape at a line end adds an empty line. */
  function CaptionTemplate(d: ProductDetails): seq<Option<string>> {
    [None, Some(d.name), None, Some(PriceLine(d)), None, Some(StockLine(d)), None, Some(d.description)]
  }

  /** The caption of the product photo. */
  function Caption(d: ProductDetails): string {
    Dedent(TemplateText(TemplateIndent, CaptionTemplate(d)))
  }

  lemma NotAllIndentAppend(x: string, y: string)
    requires !AllIndent(y)
    ensures !AllIndent(x + y)
  {
    var j :| 0 <= j < |y| && !IsIndentChar(y[j]);
    assert (x + y)[|x| + j] == y[j];
  }

  /** The fixed texts of the caption lines: no line breaks, and the stock text holds a letter. */
  lemma CaptionSuffixes()
    ensures '\n' !in " per one piece" && '\n' !in " pieces available on stock"
    ensures !AllIndent(" pieces available on stock")
  {
    assert " pieces available on stock"[1] == 'p';
  }

  /** The caption template's lines hold no line break, and its price line starts with text. */
  lemma CaptionTemplateUnbroken(d: ProductDetails)
    requires '\n' !in d.name && '\n' !in d.price && '\n' !in d.stock && '\n' !in d.description
    requires |d.price| > 0 && !IsIndentChar(d.price[0])
    ensures forall i :: 0 <= i < |CaptionTemplate(d)| ==> HasNoLineBreak(CaptionTemplate(d)[i])
    ensures StartsWithText(CaptionTemplate(d)[3])
  {
    CaptionSuffixes();
    assert PriceLine(d)[0] == d.price[0];
  }

  /** Dedented, the caption template gives the name, the price and stock lines and the
      description, with empty lines between them. */
  lemma CaptionDedentedLines(d: ProductDetails)
    requires |d.price| > 0 && !IsIndentChar(d.price[0])
    ensures DedentedLines(CaptionTemplate(d)) ==
      ["", NormalizeLine(d.name), "", PriceLine(d), "", StockLine(d), "", NormalizeLine(d.description)]
  {
    var p := PriceLine(d);
    assert p[0] == d.price[0];
    assert NormalizeLine(p) == p;
    CaptionSuffixes();
    NotAllIndentAppend(d.stock, " pieces available on stock");
    assert NormalizeLine(StockLine(d)) == StockLine(d);
  }

  /** The caption, for fields without line breaks and a price that does not start with a
      space or a tab: an empty line, the name, the price per piece and the stock, each
      followed by an empty line, and the description (name and description emptied when they
      are only spaces and tabs). */
  lemma CaptionLayout(d: ProductDetails)
    requires '\n' !in d.name && '\n' !in d.price && '\n' !in d.stock && '\n' !in d.description
    requires |d.price| > 0 && !IsIndentChar(d.price[0])
    ensures Caption(d) ==
      Join(["", NormalizeLine(d.name), "", d.price + " per one piece", "",
            d.stock + " pieces available on stock", "", NormalizeLine(d.description)], "\n")
  {
    CaptionTemplateUnbroken(d);
    CaptionDedentedLines(d);
    TemplateIndentIsIndent();
    DedentTemplate(TemplateIndent, CaptionTemplate(d), 3);
  }
}
