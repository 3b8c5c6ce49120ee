/**
 * The cart's checkout payload as the server reads it: the JSON the submit
 * handler of script.js posts, decoded, and the verdict of handle_create_order
 * in server.py on it.
 */
module Checkout {
  import opened Wrappers
  import opened Text
  import opened PyJson
  import opened Validation
  import opened Cart

  /** JSON.stringify of one item, decoded: an absent name is left out of the object. */
  function ItemJson(it: Item): (j: Json)
    ensures j.JObj? && j.fields.Keys <= {"name", "price", "size"}
    ensures "price" in j.fields && j.fields["price"] == JInt(it.price)
    ensures "size" in j.fields && j.fields["size"] == JStr(it.size)
    ensures "name" in j.fields <==> it.name.Some?
    ensures it.name.Some? ==> j.fields["name"] == JStr(it.name.value)
  {
    var base := map["price" := JInt(it.price), "size" := JStr(it.size)];
    JObj(if it.name.Some? then base["name" := JStr(it.name.value)] else base)
  }

  /** The `items` array as sent: one object per cart item, in order. */
  function ItemsJson(items: seq<Item>): (r: seq<Json>)
    ensures |r| == |items|
    ensures forall k :: 0 <= k < |items| ==> r[k] == ItemJson(items[k])
  {
    seq(|items|, k requires 0 <= k < |items| => ItemJson(items[k]))
  }

  /** The posted body, decoded. */
  function PayloadJson(p: Payload): Json {
    JObj(map[
      "customer" := JObj(map["name" := JStr(p.name), "phone" := JStr(p.phone), "address" := JStr(p.address)]),
      "items" := JArr(ItemsJson(p.items)),
      "total" := JInt(p.total)])
  }

  /**
   * A checkout the server accepts: the items arrive as sent, the total is
   * the sum of the prices, and the customer fields arrive as sent once
   * they do not start or end with a character Python strips and JavaScript
   * keeps (U+001C to U+001F, U+0085). A field that is blank to Python
   * gets "Missing fields" instead; the cart itself never checks for it.
   */
  lemma {:induction false} CheckoutAccepted(form: CheckoutForm, items: seq<Item>,
                                            show: Json -> string, parseInt: string -> Option<int>)
    requires var p := PayloadOf(form, items);
             !Blank(p.name) && !Blank(p.phone) && !Blank(p.address)
    ensures var p := PayloadOf(form, items);
            Validate(PayloadJson(p), show, parseInt)
              == Accepted(NewOrder(Strip(p.name, PyWhitespace), Strip(p.phone, PyWhitespace),
                                   Strip(p.address, PyWhitespace), ItemsJson(items), Sum(items)))
  {
    var p := PayloadOf(form, items);
    var c := CustomerJson(p);
    PayloadLookups(p);
    CustomerLookups(p);
    AcceptedWhen(PayloadJson(p).fields, c, p.name, p.phone, p.address, ItemsJson(items), Sum(items), show, parseInt);
  }

  function CustomerJson(p: Payload): map<string, Json> {
    map["name" := JStr(p.name), "phone" := JStr(p.phone), "address" := JStr(p.address)]
  }

  lemma PayloadLookups(p: Payload)
    ensures PayloadJson(p).JObj?
    ensures Get(PayloadJson(p).fields, "customer", JNull) == JObj(CustomerJson(p))
    ensures Get(PayloadJson(p).fields, "items", JNull) == JArr(ItemsJson(p.items))
    ensures Get(PayloadJson(p).fields, "total", JNull) == JInt(p.total)
  {
  }

  lemma CustomerLookups(p: Payload)
    ensures Get(CustomerJson(p), "name", JStr("")) == JStr(p.name)
    ensures Get(CustomerJson(p), "phone", JStr("")) == JStr(p.phone)
    ensures Get(CustomerJson(p), "address", JStr("")) == JStr(p.address)
  {
  }

  /** The verdict on any payload whose customer fields are strings not blank to Python, whose items are a list and whose total is an int. */
  lemma {:induction false} AcceptedWhen(fields: map<string, Json>, c: map<string, Json>,
                                        name: string, phone: string, address: string,
                                        elems: seq<Json>, total: int,
                                        show: Json -> string, parseInt: string -> Option<int>)
    requires Get(fields, "customer", JNull) == JObj(c)
    requires Get(c, "name", JStr("")) == JStr(name) && !Blank(name)
    requires Get(c, "phone", JStr("")) == JStr(phone) && !Blank(phone)
    requires Get(c, "address", JStr("")) == JStr(address) && !Blank(address)
    requires Get(fields, "items", JNull) == JArr(elems)
    requires Get(fields, "total", JNull) == JInt(total)
    ensures Validate(JObj(fields), show, parseInt)
              == Accepted(NewOrder(Strip(name, PyWhitespace), Strip(phone, PyWhitespace),
                                   Strip(address, PyWhitespace), elems, total))
  {
    assert CustomerOf(fields) == JObj(c);
    assert ItemsOf(fields) == JArr(elems);
  }

  /** A field JavaScript trimmed is stored unchanged when its ends are not whitespace to Python either. */
  lemma FieldStoredAsSent(v: Option<string>)
    requires var f := FormField(v); f != [] ==> !PyWhitespace(f[0]) && !PyWhitespace(f[|f| - 1])
    ensures Strip(FormField(v), PyWhitespace) == FormField(v)
  {
    StripTrimmed(FormField(v), PyWhitespace);
  }
}
