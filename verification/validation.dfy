/**
 * Validation and normalisation of the order payload in handle_create_order
 * (server.py), once the body has been decoded into a Python value.
 */
module Validation {
  import opened Wrappers
  import opened Text
  import opened PyJson

  /** What the server goes on to store: stripped customer fields, the items list and an integer total. */
  datatype NewOrder = NewOrder(name: string, phone: string, address: string, items: seq<Json>, total: int)

  /**
   * The outcome of the checks: accepted, "Missing fields" (400), or an
   * exception the handler does not catch (AttributeError when the payload
   * or a truthy customer is not a dict, OverflowError when int() meets an
   * infinite total).
   */
  datatype Verdict = Accepted(order: NewOrder) | MissingFields | Raised

  /** payload.get("customer") or {} */
  function CustomerOf(payload: map<string, Json>): Json {
    var c := Get(payload, "customer", JNull);
    if Truthy(c) then c else JObj(map[])
  }

  /** str(customer.get(key, "")).strip() */
  function Field(customer: map<string, Json>, key: string, show: Json -> string): string {
    Strip(PyStr(Get(customer, key, JStr("")), show), PyWhitespace)
  }

  /** payload.get("items") or [] */
  function ItemsOf(payload: map<string, Json>): Json {
    var v := Get(payload, "items", JNull);
    if Truthy(v) then v else JArr([])
  }

  /**
   * The total after `if not isinstance(total, int): total = int(total)`
   * with TypeError and ValueError turned into 0. A bool is an int to
   * isinstance and is stored as 1 or 0; a float is truncated toward zero;
   * NaN gives 0; a string goes through int(), given as `parseInt` (None for
   * ValueError). None is returned only for an infinite float, whose
   * OverflowError nothing catches.
   */
  function CoerceTotal(total: Json, parseInt: string -> Option<int>): (t: Option<int>)
    ensures t.None? <==> total.JFloat? && total.f.Infinite?
    ensures total.JInt? ==> t == Some(total.i)
    ensures total.JBool? ==> t == Some(if total.b then 1 else 0)
    ensures total.JFloat? && total.f.NonZero? ==> t == Some(total.f.trunc)
    ensures total.JFloat? && (total.f.Zero? || total.f.NaN?) ==> t == Some(0)
    ensures total.JStr? ==> t == Some(parseInt(total.s).GetOr(0))
    ensures total.JNull? || total.JArr? || total.JObj? ==> t == Some(0)
  {
    match total
    case JInt(i) => Some(i)
    case JBool(b) => Some(if b then 1 else 0)
    case JFloat(f) =>
      (match f
       case Zero => Some(0)
       case NonZero(n) => Some(n)
       case NaN => Some(0)
       case Infinite(_) => None)
    case JStr(s) => Some(parseInt(s).GetOr(0))
    case JNull => Some(0)
    case JArr(_) => Some(0)
    case JObj(_) => Some(0)
  }

  /** The three customer fields are non-empty after stripping and `items` is a list. */
  predicate Complete(customer: map<string, Json>, payload: map<string, Json>, show: Json -> string) {
    Field(customer, "name", show) != [] && Field(customer, "phone", show) != []
    && Field(customer, "address", show) != [] && ItemsOf(payload).JArr?
  }

  /** Lines 317-333 of server.py, in order. */
  function Validate(payload: Json, show: Json -> string, parseInt: string -> Option<int>): (v: Verdict)
    ensures v.Raised? <==>
              !payload.JObj? || !CustomerOf(payload.fields).JObj?
              || (Complete(CustomerOf(payload.fields).fields, payload.fields, show)
                  && CoerceTotal(Get(payload.fields, "total", JNull), parseInt).None?)
    ensures v.MissingFields? <==>
              payload.JObj? && CustomerOf(payload.fields).JObj?
              && !Complete(CustomerOf(payload.fields).fields, payload.fields, show)
    ensures v.Accepted? ==>
              var c := CustomerOf(payload.fields).fields;
              && v.order.name == Field(c, "name", show) != []
              && v.order.phone == Field(c, "phone", show) != []
              && v.order.address == Field(c, "address", show) != []
              && JArr(v.order.items) == ItemsOf(payload.fields)
              && Some(v.order.total) == CoerceTotal(Get(payload.fields, "total", JNull), parseInt)
  {
    if !payload.JObj? then Raised
    else
      var p := payload.fields;
      var customer := CustomerOf(p);
      if !customer.JObj? then Raised
      else
        var c := customer.fields;
        var name := Field(c, "name", show);
        var phone := Field(c, "phone", show);
        var address := Field(c, "address", show);
        var items := ItemsOf(p);
        if name == [] || phone == [] || address == [] || !items.JArr? then MissingFields
        else
          match CoerceTotal(Get(p, "total", JNull), parseInt)
          case None => Raised
          case Some(total) => Accepted(NewOrder(name, phone, address, items.elems, total))
  }

  /**
   * An order is refused with "Missing fields" exactly when the str() of a
   * customer field is all whitespace (an absent field is "") or `items` is
   * a truthy value that is not a list; a falsy `items` (absent, null,
   * false, 0, "", {}) becomes [] and is accepted.
   */
  lemma MissingFieldsIff(p: map<string, Json>, show: Json -> string, parseInt: string -> Option<int>)
    requires CustomerOf(p).JObj?
    ensures var c := CustomerOf(p).fields;
            Validate(JObj(p), show, parseInt).MissingFields? <==>
              Blank(PyStr(Get(c, "name", JStr("")), show))
              || Blank(PyStr(Get(c, "phone", JStr("")), show))
              || Blank(PyStr(Get(c, "address", JStr("")), show))
              || (Truthy(Get(p, "items", JNull)) && !Get(p, "items", JNull).JArr?)
    ensures !Truthy(Get(p, "items", JNull)) ==> ItemsOf(p) == JArr([])
  {
  }

  /** Every character is whitespace to str.strip(). */
  predicate Blank(s: string) {
    forall k :: 0 <= k < |s| ==> PyWhitespace(s[k])
  }

  /**
   * The total never decides between acceptance and "Missing fields":
   * replacing it by any other value leaves that verdict as it was, and an
   * order whose total is not an infinite float is accepted whatever that
   * total is.
   */
  lemma {:induction false} TotalNeverRejects(p: map<string, Json>, t: Json, show: Json -> string, parseInt: string -> Option<int>)
    ensures Validate(JObj(p["total" := t]), show, parseInt).MissingFields?
            == Validate(JObj(p), show, parseInt).MissingFields?
    ensures Validate(JObj(p), show, parseInt).Accepted? && !(t.JFloat? && t.f.Infinite?) ==>
              Validate(JObj(p["total" := t]), show, parseInt).Accepted?
  {
    var q := p["total" := t];
    assert Get(q, "customer", JNull) == Get(p, "customer", JNull);
    assert Get(q, "items", JNull) == Get(p, "items", JNull);
    assert Get(q, "total", JNull) == t;
    assert CustomerOf(q) == CustomerOf(p) && ItemsOf(q) == ItemsOf(p);
    if CustomerOf(p).JObj? {
      var c := CustomerOf(p).fields;
      assert Complete(c, q, show) == Complete(c, p, show);
    }
  }

  /**
   * A customer field that is not a string never causes a rejection, since
   * str() of such a value is non-empty text.
   */
  lemma NonStringFieldIsNeverBlank(v: Json, show: Json -> string)
    requires ShowsPlainly(show, PyWhitespace)
    requires !v.JStr?
    ensures Strip(PyStr(v, show), PyWhitespace) == show(v) != []
  {
    var s := show(v);
    assert s != [] && !PyWhitespace(s[0]) && !PyWhitespace(s[|s| - 1]);
    assert SkipLeading(s, PyWhitespace, 0) == 0;
    assert SkipTrailing(s, PyWhitespace, 0, |s|) == |s|;
    assert s[0..|s|] == s;
  }
}
