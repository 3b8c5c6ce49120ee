/**
 * The shopping cart of script.js: the module-level `cartItems` array,
 * changed in place by the add, size and remove handlers and emptied after
 * a successful checkout, with the total and count renderCart shows and the
 * payload the checkout form sends.
 */
module Cart {
  import opened Wrappers
  import opened Text

  /** One cart line `{name, price, size}`; `name` is absent when the button has no data-product. */
  datatype Item = Item(name: Option<string>, price: int, size: string)

  /**
   * The value Number(text) gives for an index attribute: NaN, an integer
   * (-0 included, as 0), a non-integral number (kept as its truncation
   * toward zero) or an infinity.
   */
  datatype JsNumber = NaN | Integral(n: int) | Fractional(trunc: int) | Infinite(positive: bool)

  /** The size a new item starts with. */
  const DefaultSize: string := "S"

  /** The sum of the prices, the first item first. */
  function Sum(items: seq<Item>): int {
    if items == [] then 0 else items[0].price + Sum(items[1..])
  }

  lemma {:induction false} SumConcat(a: seq<Item>, b: seq<Item>)
    ensures Sum(a + b) == Sum(a) + Sum(b)
    decreases |a|
  {
    if a == [] {
      assert a + b == b;
    } else {
      assert (a + b)[1..] == a[1..] + b;
      SumConcat(a[1..], b);
    }
  }

  /** Appending an item adds its price to the total. */
  lemma {:induction false} SumAppend(s: seq<Item>, x: Item)
    ensures Sum(s + [x]) == Sum(s) + x.price
  {
    SumConcat(s, [x]);
    assert [x][1..] == [];
  }

  /**
   * The start index Array.prototype.splice computes from `index` for an
   * array of length len: NaN is 0, a number is truncated toward zero, a
   * negative start counts from the end (not below 0), and a start past the
   * end is the end.
   */
  function SpliceStart(index: JsNumber, len: nat): (k: nat)
    ensures k <= len
    ensures index.NaN? || (index.Infinite? && !index.positive) ==> k == 0
    ensures index.Integral? && 0 <= index.n <= len ==> k == index.n
    ensures index.Integral? && -(len as int) <= index.n < 0 ==> k == len + index.n
    ensures index.Integral? && index.n > len ==> k == len
    ensures index.Integral? && index.n < -(len as int) ==> k == 0
    ensures index == Infinite(true) ==> k == len
    ensures index.Integral? ==> k == Clamp(index.n, len)
    ensures index.Fractional? ==> k == Clamp(index.trunc, len)
  {
    match index
    case NaN => 0
    case Integral(n) => Clamp(n, len)
    case Fractional(t) => Clamp(t, len)
    case Infinite(positive) => if positive then len else 0
  }

  /**
   * A relative start, resolved against length len: a negative one counts
   * back from the end but not below 0, one past the end is the end.
   */
  function Clamp(rel: int, len: nat): (k: nat)
    ensures k <= len
    ensures rel < -(len as int) ==> k == 0
    ensures -(len as int) <= rel < 0 ==> k == len + rel
    ensures 0 <= rel <= len ==> k == rel
    ensures rel > len ==> k == len
  {
    if rel < 0 then (if len + rel < 0 then 0 else len + rel)
    else if rel > len then len
    else rel
  }

  /** `splice(k, 1)` on s: the item at k goes, if there is one. */
  function RemoveAt(s: seq<Item>, k: nat): (r: seq<Item>)
    ensures k >= |s| ==> r == s
    ensures k < |s| ==>
              && |r| == |s| - 1
              && (forall j :: 0 <= j < k ==> r[j] == s[j])
              && (forall j :: k <= j < |r| ==> r[j] == s[j + 1])
  {
    if k < |s| then s[..k] + s[k + 1..] else s
  }

  /**
   * Removing an existing index i deletes exactly s[i]: the items before it
   * keep their places, the ones after it move down by one, no other item is
   * lost and the total drops by its price.
   */
  lemma {:induction false} RemoveIndex(s: seq<Item>, i: int)
    requires 0 <= i < |s|
    ensures var r := RemoveAt(s, SpliceStart(Integral(i), |s|));
            && |r| == |s| - 1
            && (forall j :: 0 <= j < i ==> r[j] == s[j])
            && (forall j :: i <= j < |r| ==> r[j] == s[j + 1])
            && multiset(r) + multiset{s[i]} == multiset(s)
            && Sum(r) == Sum(s) - s[i].price
  {
    assert SpliceStart(Integral(i), |s|) == i;
    RemoveSplits(s, i);
  }

  /** The removal at an existing position k, spelled out. */
  lemma {:induction false} RemoveSplits(s: seq<Item>, k: nat)
    requires k < |s|
    ensures var r := RemoveAt(s, k);
            && |r| == |s| - 1
            && (forall j :: 0 <= j < k ==> r[j] == s[j])
            && (forall j :: k <= j < |r| ==> r[j] == s[j + 1])
            && multiset(r) + multiset{s[k]} == multiset(s)
            && Sum(r) == Sum(s) - s[k].price
  {
    var r := RemoveAt(s, k);
    var a, b := s[..k], s[k + 1..];
    assert r == a + b;
    assert s == a + [s[k]] + b;
    assert multiset(s) == multiset(a) + multiset{s[k]} + multiset(b);
    SumConcat(a, b);
    SumConcat(a + [s[k]], b);
    SumAppend(a, s[k]);
  }

  /** A negative index -d names the d-th item from the end. */
  lemma RemoveFromEnd(s: seq<Item>, d: int)
    requires 1 <= d <= |s|
    ensures RemoveAt(s, SpliceStart(Integral(-d), |s|)) == s[..|s| - d] + s[|s| - d + 1..]
  {
  }

  /** An index at or past the end, or +Infinity, removes nothing. */
  lemma RemovePastEnd(s: seq<Item>, index: JsNumber)
    requires (index.Integral? && index.n >= |s|) || index == Infinite(true)
    ensures RemoveAt(s, SpliceStart(index, |s|)) == s
  {
  }

  /** A NaN index (a data-remove that is not a number) removes the first item. */
  lemma RemoveNaN(s: seq<Item>)
    requires s != []
    ensures RemoveAt(s, SpliceStart(NaN, |s|)) == s[1..]
  {
  }

  /** `!Number.isNaN(index) && cartItems[index]`: the index is an integer naming an item. */
  predicate Names(index: JsNumber, len: nat) {
    index.Integral? && 0 <= index.n < len
  }

  /** Changing a size never changes the number of items or the total. */
  lemma {:induction false} ResizeKeepsTotal(s: seq<Item>, i: nat, size: string)
    requires i < |s|
    ensures |s[i := s[i].(size := size)]| == |s|
    ensures Sum(s[i := s[i].(size := size)]) == Sum(s)
  {
    var t := s[i := s[i].(size := size)];
    assert s == s[..i] + [s[i]] + s[i + 1..];
    assert t == s[..i] + [t[i]] + s[i + 1..];
    SumConcat(s[..i] + [s[i]], s[i + 1..]);
    SumConcat(s[..i] + [t[i]], s[i + 1..]);
    SumAppend(s[..i], s[i]);
    SumAppend(s[..i], t[i]);
  }

  /** What renderCart puts on the page: the total, the count, the button and the empty message. */
  datatype CartView = CartView(total: int, count: nat, checkoutEnabled: bool, showsEmptyMessage: bool)

  /** The checkout form's three fields as FormData.get returns them (absent as None). */
  datatype CheckoutForm = CheckoutForm(name: Option<string>, phone: Option<string>, address: Option<string>)

  /** The JSON body the submit handler posts to /api/orders. */
  datatype Payload = Payload(name: string, phone: string, address: string, items: seq<Item>, total: int)

  /** The result of a submit: nothing sent (empty cart) or the payload sent and whether the server took it. */
  datatype SubmitOutcome = NothingToSend | Sent(payload: Payload, delivered: bool)

  /** `String(formData.get(key) || "").trim()`: an absent field is "", and the text is trimmed. */
  function FormField(v: Option<string>): (r: string)
    ensures v.None? ==> r == []
    ensures r != [] ==> !JsWhitespace(r[0]) && !JsWhitespace(r[|r| - 1])
    ensures v.Some? ==> |r| <= |v.value|
    ensures r == Strip(v.GetOr(""), JsWhitespace)
  {
    Strip(v.GetOr(""), JsWhitespace)
  }

  /**
   * `items.reduce((sum, item) => sum + item.price, acc)`: the same total
   * as the loop in renderCart accumulates, on top of acc.
   */
  function Reduce(acc: int, items: seq<Item>): (r: int)
    ensures r == acc + Sum(items)
    decreases |items|
  {
    if items == [] then acc else Reduce(acc + items[0].price, items[1..])
  }

  /** The payload built from the form and the cart. */
  function PayloadOf(form: CheckoutForm, items: seq<Item>): (p: Payload)
    ensures p.items == items && p.total == Sum(items)
    ensures p.name == FormField(form.name) && p.phone == FormField(form.phone)
            && p.address == FormField(form.address)
  {
    Payload(FormField(form.name), FormField(form.phone), FormField(form.address), items, Reduce(0, items))
  }

  /** The `cartItems` array. */
  class ShoppingCart {
    var items: seq<Item>

    constructor()
      ensures items == []
    {
      items := [];
    }

    /**
     * A .btn-cart click: one item is appended with the button's product
     * name, the price `Number(data-price) || 0` (None stands for NaN) and
     * size "S"; the items already there are untouched.
     */
    method Add(name: Option<string>, price: Option<int>)
      modifies this
      ensures items == old(items) + [Item(name, price.GetOr(0), DefaultSize)]
      ensures Sum(items) == Sum(old(items)) + price.GetOr(0)
    {
      SumAppend(items, Item(name, price.GetOr(0), DefaultSize));
      items := items + [Item(name, price.GetOr(0), DefaultSize)];
    }

    /**
     * A change on a .cart-size select: only the size of the named item
     * changes, and only when the index names one; otherwise nothing does.
     */
    method ChangeSize(index: JsNumber, size: string)
      modifies this
      ensures Names(index, |old(items)|) ==>
                items == old(items)[index.n := old(items)[index.n].(size := size)]
      ensures !Names(index, |old(items)|) ==> items == old(items)
      ensures |items| == |old(items)| && Sum(items) == Sum(old(items))
    {
      if Names(index, |items|) {
        ResizeKeepsTotal(items, index.n, size);
        items := items[index.n := items[index.n].(size := size)];
      }
    }

    /** A click on a data-remove button: `splice(Number(index), 1)`. */
    method Remove(index: JsNumber)
      modifies this
      ensures items == RemoveAt(old(items), SpliceStart(index, |old(items)|))
    {
      var k := SpliceStart(index, |items|);
      if k < |items| {
        items := items[..k] + items[k + 1..];
      }
    }

    /** `cartItems.length = 0`. */
    method Clear()
      modifies this
      ensures items == []
    {
      items := [];
    }

    /** renderCart: the total is accumulated item by item. */
    method Render() returns (view: CartView)
      ensures view.total == Sum(items) && view.count == |items|
      ensures view.checkoutEnabled <==> items != []
      ensures view.showsEmptyMessage <==> items == []
    {
      if |items| == 0 {
        return CartView(0, 0, false, true);
      }
      var total := 0;
      var i := 0;
      while i < |items|
        invariant 0 <= i <= |items|
        invariant total == Sum(items[..i])
      {
        SumAppend(items[..i], items[i]);
        assert items[..i + 1] == items[..i] + [items[i]];
        total := total + items[i].price;
        i := i + 1;
      }
      assert items[..|items|] == items;
      view := CartView(total, |items|, true, false);
    }

    /**
     * The submit handler. An empty cart sends nothing and stays empty; a
     * non-empty one sends its payload, and is emptied when the server
     * answers with a 2xx status (`delivered`) and left as it was otherwise.
     */
    method Submit(form: CheckoutForm, delivered: bool) returns (outcome: SubmitOutcome)
      modifies this
      ensures old(items) == [] ==> outcome == NothingToSend
      ensures old(items) != [] ==> outcome == Sent(PayloadOf(form, old(items)), delivered)
      ensures items == if outcome.Sent? && delivered then [] else old(items)
    {
      if |items| == 0 {
        return NothingToSend;
      }
      outcome := Sent(PayloadOf(form, items), delivered);
      if delivered {
        Clear();
      }
    }
  }
}
