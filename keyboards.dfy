/** The inline keyboards of the bot and the callback data they carry: the main menu built by
    `get_main_menu_keyboard` (one button per product, then the cart button), the product card
    built in `handle_menu` (Buy 1, Buy 5, Buy 10, then Back), and the decoding of a card
    button's data in `handle_description`. */
module Keyboards {
  import opened PyBuiltins
  import opened Telegram
  import opened Shop

  /** The callback data of the main menu's cart button, which `handle_menu` tests for. */
  const CartDetailsToken: string := "get_cart_details"

  /** The callback data of the product card's Back button, which `handle_description` tests for. */
  const MenuReturnToken: string := "menu_return"

  const CartButton: Button := Button("View shopping cart", CartDetailsToken)

  const BackButton: Button := Button("Back", MenuReturnToken)

  /** `items_quantities`. */
  const ItemsQuantities: seq<int> := [1, 5, 10]

  // ---------------------------------------------------------------------------
  // Main menu

  /** A product's row: one button showing its name, whose callback data is its id. */
  function ProductRow(p: Product): seq<Button> {
    [Button(p.name, p.id)]
  }

  function ProductRows(products: seq<Product>): (rows: Keyboard)
    ensures |rows| == |products|
  {
    if |products| == 0 then [] else [ProductRow(products[0])] + ProductRows(products[1..])
  }

  /** The main menu: the product rows in catalogue order, then the cart row. */
  function MainMenuKeyboard(products: seq<Product>): (keyboard: Keyboard)
    ensures |keyboard| == |products| + 1
    ensures keyboard[|products|] == [CartButton]
  {
    ProductRows(products) + [[CartButton]]
  }

  /** Row `i` of the product rows is product `i`'s button. */
  lemma {:induction false} ProductRowsInOrder(products: seq<Product>)
    ensures |ProductRows(products)| == |products|
    ensures forall i :: 0 <= i < |products| ==> ProductRows(products)[i] == [Button(products[i].name, products[i].id)]
    decreases |products|
  {
    if |products| > 0 {
      ProductRowsInOrder(products[1..]);
      var rows := ProductRows(products);
      assert rows == [ProductRow(products[0])] + ProductRows(products[1..]);
      forall i | 1 <= i < |products| ensures rows[i] == [Button(products[i].name, products[i].id)] {
        assert rows[i] == ProductRows(products[1..])[i - 1];
        assert products[1..][i - 1] == products[i];
      }
    }
  }

  /** The main menu has one row per product, in catalogue order, each a single button labelled
      with the product's name and carrying its id, and then the cart row. */
  lemma MainMenuKeyboardShape(products: seq<Product>)
    ensures |MainMenuKeyboard(products)| == |products| + 1
    ensures forall i :: 0 <= i < |products| ==> MainMenuKeyboard(products)[i] == [Button(products[i].name, products[i].id)]
    ensures MainMenuKeyboard(products)[|products|] == [Button("View shopping cart", "get_cart_details")]
  {
    ProductRowsInOrder(products);
  }

  /** The loop of `get_main_menu_keyboard`. */
  method BuildMainMenuKeyboard(products: seq<Product>) returns (keyboard: Keyboard)
    ensures |keyboard| == |products| + 1
    ensures forall i :: 0 <= i < |products| ==> keyboard[i] == [Button(products[i].name, products[i].id)]
    ensures keyboard[|products|] == [CartButton]
    ensures keyboard == MainMenuKeyboard(products)
  {
    keyboard := [];
    for number := 0 to |products|
      invariant |keyboard| == number
      invariant forall i :: 0 <= i < number ==> keyboard[i] == [Button(products[i].name, products[i].id)]
    {
      var product := products[number];
      var productButton := [Button(product.name, product.id)];
      keyboard := keyboard + [productButton];
    }
    keyboard := keyboard + [[CartButton]];
    MainMenuKeyboardShape(products);
  }

  // ---------------------------------------------------------------------------
  // Product card

  /** `f'{product_id}, {quantity}'`. */
  function QuantityCallback(productId: string, quantity: int): (data: string)
    ensures |data| > |productId| + 2 && data[..|productId|] == productId
    ensures data[|productId|] == ','
  {
    productId + ", " + IntToString(quantity)
  }

  function QuantityRow(productId: string, quantity: int): seq<Button> {
    [Button("Buy " + IntToString(quantity), QuantityCallback(productId, quantity))]
  }

  function QuantityRows(productId: string, quantities: seq<int>): (rows: Keyboard)
    ensures |rows| == |quantities|
  {
    if |quantities| == 0 then []
    else [QuantityRow(productId, quantities[0])] + QuantityRows(productId, quantities[1..])
  }

  /** The product card: a Buy row per quantity, then the Back row. */
  function ProductCardKeyboard(productId: string): (keyboard: Keyboard)
    ensures |keyboard| == |ItemsQuantities| + 1
    ensures keyboard[|ItemsQuantities|] == [BackButton]
  {
    QuantityRows(productId, ItemsQuantities) + [[BackButton]]
  }

  lemma {:induction false} QuantityRowsInOrder(productId: string, quantities: seq<int>)
    ensures |QuantityRows(productId, quantities)| == |quantities|
    ensures forall i :: 0 <= i < |quantities| ==> QuantityRows(productId, quantities)[i] == QuantityRow(productId, quantities[i])
    decreases |quantities|
  {
    if |quantities| > 0 {
      QuantityRowsInOrder(productId, quantities[1..]);
      var rows := QuantityRows(productId, quantities);
      forall i | 1 <= i < |quantities| ensures rows[i] == QuantityRow(productId, quantities[i]) {
        assert rows[i] == QuantityRows(productId, quantities[1..])[i - 1];
        assert quantities[1..][i - 1] == quantities[i];
      }
    }
  }

  lemma DecimalLiterals()
    ensures IntToString(1) == "1" && IntToString(5) == "5" && IntToString(10) == "10"
  {
    assert NatToDecimal(10) == NatToDecimal(1) + [DigitChar(0)];
  }

  /** The product card has four rows: Buy 1, Buy 5 and Buy 10, whose data is the product id,
      a comma and a space, and the quantity, then Back with `menu_return`. */
  lemma ProductCardKeyboardShape(productId: string)
    ensures |ProductCardKeyboard(productId)| == 4
    ensures ProductCardKeyboard(productId)[0] == [Button("Buy 1", productId + ", 1")]
    ensures ProductCardKeyboard(productId)[1] == [Button("Buy 5", productId + ", 5")]
    ensures ProductCardKeyboard(productId)[2] == [Button("Buy 10", productId + ", 10")]
    ensures ProductCardKeyboard(productId)[3] == [Button("Back", "menu_return")]
  {
    QuantityRowsInOrder(productId, ItemsQuantities);
    DecimalLiterals();
    var rows := QuantityRows(productId, ItemsQuantities);
    assert rows[0] == QuantityRow(productId, 1);
    assert rows[1] == QuantityRow(productId, 5);
    assert rows[2] == QuantityRow(productId, 10);
    assert QuantityCallback(productId, 1) == productId + ", 1";
    assert QuantityCallback(productId, 5) == productId + ", 5";
    assert QuantityCallback(productId, 10) == productId + ", 10";
    assert "Buy " + IntToString(1) == "Buy 1";
    assert "Buy " + IntToString(5) == "Buy 5";
    assert "Buy " + IntToString(10) == "Buy 10";
  }

  /** The quantity loop of `handle_menu`. */
  method BuildProductCardKeyboard(productId: string) returns (keyboard: Keyboard)
    ensures |keyboard| == |ItemsQuantities| + 1
    ensures forall i :: 0 <= i < |ItemsQuantities| ==> keyboard[i] == QuantityRow(productId, ItemsQuantities[i])
    ensures keyboard[|ItemsQuantities|] == [BackButton]
    ensures keyboard == ProductCardKeyboard(productId)
  {
    var itemsQuantities := ItemsQuantities;
    keyboard := [];
    for k := 0 to |itemsQuantities|
      invariant |keyboard| == k
      invariant forall i :: 0 <= i < k ==> keyboard[i] == QuantityRow(productId, itemsQuantities[i])
    {
      var quantity := itemsQuantities[k];
      keyboard := keyboard + [[Button("Buy " + IntToString(quantity), productId + ", " + IntToString(quantity))]];
    }
    keyboard := keyboard + [[BackButton]];
    QuantityRowsInOrder(productId, ItemsQuantities);
  }

  // ---------------------------------------------------------------------------
  // Decoding a card button

  /** Data made of two parts without `", "` around one `", "` splits into exactly those parts. */
  lemma SplitOfSeparatorFreePair(data: string)
    ensures forall a, t | data == a + ", " + t && !Contains(a, ", ") && !Contains(t, ", ") ::
      Split(data, ", ") == [a, t]
  {
    forall a, t | data == a + ", " + t && !Contains(a, ", ") && !Contains(t, ", ")
      ensures Split(data, ", ") == [a, t]
    {
      SplitAroundCommaSpace(a, t);
    }
  }

  /** `product_id, quantity = data.split(sep=', ')` and then `int(quantity)`: exactly two
      parts are required, and the second must be an integer literal. */
  function ParseQuantityCallback(data: string): (r: Result<(string, int), Failure>)
    ensures r.Ok? ==> exists tail ::
      && data == r.value.0 + ", " + tail
      && !Contains(r.value.0, ", ") && !Contains(tail, ", ")
      && ParseInt(tail) == Ok(r.value.1)
    ensures (exists a, t :: data == a + ", " + t && !Contains(a, ", ") && !Contains(t, ", ") && ParseInt(t).Ok?) ==> r.Ok?
  {
    var parts := Split(data, ", ");
    SplitOfSeparatorFreePair(data);
    if |parts| != 2 then Err(WrongPartCount(|parts|))
    else
      SplitJoin(data, ", ");
      SplitPartsAreFree(data, ", ");
      assert parts[1..] == [parts[1]];
      assert data == parts[0] + ", " + parts[1];
      match ParseInt(parts[1])
      case Err(msg) => Err(InvalidQuantity(msg))
      case Ok(q) => Ok((parts[0], q))
  }

  /** Decoding the data of a Buy button gives back its product id and quantity exactly when
      the id does not contain `", "`; otherwise the split yields more than two parts. */
  lemma QuantityCallbackRoundTrip(productId: string, quantity: int)
    ensures ParseQuantityCallback(QuantityCallback(productId, quantity)).Ok? <==> !Contains(productId, ", ")
    ensures !Contains(productId, ", ") ==> ParseQuantityCallback(QuantityCallback(productId, quantity)) == Ok((productId, quantity))
    ensures Contains(productId, ", ") ==>
      exists n :: n >= 3 && ParseQuantityCallback(QuantityCallback(productId, quantity)) == Err(WrongPartCount(n))
  {
    var digits := IntToString(quantity);
    IntToStringHasNoCommaSpace(quantity);
    SplitAroundCommaSpace(productId, digits);
    ParseIntOfIntToString(quantity);
    if Contains(productId, ", ") {
      var n := |Split(QuantityCallback(productId, quantity), ", ")|;
      assert ParseQuantityCallback(QuantityCallback(productId, quantity)) == Err(WrongPartCount(n));
    }
  }

  /** Every Buy button of a card for an id without `", "` decodes to that id and its quantity. */
  lemma ProductCardCallbacksDecode(productId: string)
    requires !Contains(productId, ", ")
    ensures |ProductCardKeyboard(productId)| == |ItemsQuantities| + 1
    ensures forall i :: 0 <= i < |ItemsQuantities| ==> |ProductCardKeyboard(productId)[i]| == 1
    ensures forall i :: 0 <= i < |ItemsQuantities| ==>
      ParseQuantityCallback(ProductCardKeyboard(productId)[i][0].callbackData) == Ok((productId, ItemsQuantities[i]))
  {
    QuantityRowsInOrder(productId, ItemsQuantities);
    forall i | 0 <= i < |ItemsQuantities|
      ensures ParseQuantityCallback(ProductCardKeyboard(productId)[i][0].callbackData) == Ok((productId, ItemsQuantities[i]))
    {
      assert ProductCardKeyboard(productId)[i][0].callbackData == QuantityCallback(productId, ItemsQuantities[i]);
      QuantityCallbackRoundTrip(productId, ItemsQuantities[i]);
    }
  }
}
