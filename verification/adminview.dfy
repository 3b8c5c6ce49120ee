/**
 * The part of render_admin_page (server.py) that depends on the orders:
 * one table row per order with the user-supplied text escaped, or a single
 * placeholder row when there are none. The surrounding page template is
 * fixed text and is not modelled.
 */
module AdminView {
  import opened Wrappers
  import opened Text
  import opened PyJson
  import opened OrderStore

  /** The characters html.escape(s, quote=True) rewrites, '&' aside: those that end text and start markup. */
  predicate Markup(c: char) {
    c == '<' || c == '>' || c == '"' || c == '\''
  }

  function EscapeChar(c: char): string {
    if c == '&' then "&amp;"
    else if c == '<' then "&lt;"
    else if c == '>' then "&gt;"
    else if c == '"' then "&quot;"
    else if c == '\'' then "&#x27;"
    else [c]
  }

  /**
   * html.escape(s): the five characters replaced by their references. The
   * result holds no character that could open a tag or close an attribute.
   */
  function Escape(s: string): (r: string)
    ensures forall k :: 0 <= k < |r| ==> !Markup(r[k])
  {
    if s == [] then []
    else
      var head := EscapeChar(s[0]);
      var tail := Escape(s[1..]);
      assert forall k :: 0 <= k < |head| ==> !Markup(head[k]);
      assert forall k :: |head| <= k < |head + tail| ==> (head + tail)[k] == tail[k - |head|];
      head + tail
  }

  /** Decoding of exactly the five references Escape writes; any other text stays as it is. */
  function Unescape(s: string): string {
    if s == [] then []
    else if StartsWith(s, "&amp;") then "&" + Unescape(s[5..])
    else if StartsWith(s, "&lt;") then "<" + Unescape(s[4..])
    else if StartsWith(s, "&gt;") then ">" + Unescape(s[4..])
    else if StartsWith(s, "&quot;") then "\"" + Unescape(s[6..])
    else if StartsWith(s, "&#x27;") then "'" + Unescape(s[6..])
    else [s[0]] + Unescape(s[1..])
  }

  /** Escaping loses nothing: the browser shows exactly the text the customer typed. */
  lemma {:induction false} UnescapeEscape(s: string)
    ensures Unescape(Escape(s)) == s
  {
    if s != [] {
      UnescapeEscape(s[1..]);
      UnescapeChar(s[0], Escape(s[1..]));
      assert [s[0]] + s[1..] == s;
    }
  }

  /** Decoding the escape of one character gives the character back, whatever follows. */
  lemma {:induction false} UnescapeChar(c: char, tail: string)
    ensures Unescape(EscapeChar(c) + tail) == [c] + Unescape(tail)
  {
    if c == '&' {
      UnescapeAmp(tail);
    } else if c == '<' {
      UnescapeLt(tail);
    } else if c == '>' {
      UnescapeGt(tail);
    } else if c == '"' {
      UnescapeQuot(tail);
    } else if c == '\'' {
      UnescapeApos(tail);
    } else {
      var t := [c] + tail;
      assert t[0] == c && t[1..] == tail;
      assert !StartsWith(t, "&amp;") && !StartsWith(t, "&lt;") && !StartsWith(t, "&gt;")
             && !StartsWith(t, "&quot;") && !StartsWith(t, "&#x27;") by {
        assert t[0] != '&';
      }
    }
  }

  lemma UnescapeAmp(tail: string)
    ensures Unescape("&amp;" + tail) == "&" + Unescape(tail)
  {
    var t := "&amp;" + tail;
    assert t[..5] == "&amp;" && t[5..] == tail;
  }

  lemma UnescapeLt(tail: string)
    ensures Unescape("&lt;" + tail) == "<" + Unescape(tail)
  {
    var t := "&lt;" + tail;
    assert t[..4] == "&lt;" && t[4..] == tail;
    assert !StartsWith(t, "&amp;") by { assert t[1] == 'l'; }
  }

  lemma UnescapeGt(tail: string)
    ensures Unescape("&gt;" + tail) == ">" + Unescape(tail)
  {
    var t := "&gt;" + tail;
    assert t[..4] == "&gt;" && t[4..] == tail;
    assert !StartsWith(t, "&amp;") && !StartsWith(t, "&lt;") by { assert t[1] == 'g'; }
  }

  lemma UnescapeQuot(tail: string)
    ensures Unescape("&quot;" + tail) == "\"" + Unescape(tail)
  {
    var t := "&quot;" + tail;
    assert t[..6] == "&quot;" && t[6..] == tail;
    assert !StartsWith(t, "&amp;") && !StartsWith(t, "&lt;") && !StartsWith(t, "&gt;") by {
      assert t[1] == 'q';
    }
  }

  lemma UnescapeApos(tail: string)
    ensures Unescape("&#x27;" + tail) == "'" + Unescape(tail)
  {
    var t := "&#x27;" + tail;
    assert t[..6] == "&#x27;" && t[6..] == tail;
    assert !StartsWith(t, "&amp;") && !StartsWith(t, "&lt;") && !StartsWith(t, "&gt;")
           && !StartsWith(t, "&quot;") by {
      assert t[1] == '#';
    }
  }

  /** One rendered table row: the escaped fields as they appear in the cells. */
  datatype Row = Row(id: int, name: string, phone: string, address: string,
                     items: string, total: int, createdAt: string)

  /** The table body: a row per order, or the single "Aucune commande." placeholder row. */
  datatype Table = Placeholder | Rows(rows: seq<Row>)

  /**
   * f"{item.get('name', '')} ({item.get('size', '')})"; None when the item
   * is not a dict (item.get raises AttributeError).
   */
  function ItemLabel(item: Json, show: Json -> string): (r: Option<string>)
    ensures r.Some? <==> item.JObj?
  {
    if !item.JObj? then None
    else
      Some(PyStr(Get(item.fields, "name", JStr("")), show) + " ("
           + PyStr(Get(item.fields, "size", JStr("")), show) + ")")
  }

  /** ", ".join of the item labels; None when one of them fails. */
  function ItemsText(items: seq<Json>, show: Json -> string): (r: Option<string>)
    ensures r.Some? <==> forall k :: 0 <= k < |items| ==> items[k].JObj?
  {
    if items == [] then Some("")
    else
      match ItemLabel(items[0], show)
      case None => None
      case Some(first) =>
        if |items| == 1 then Some(first)
        else
          match ItemsText(items[1..], show)
          case None => None
          case Some(rest) => Some(first + ", " + rest)
  }

  /**
   * The row for one order: name, phone, address and the items text
   * escaped; id, total and created_at (all written by the server) as they
   * are. None when an item is not a dict.
   */
  function RowOf(o: Order, show: Json -> string): (r: Option<Row>)
    ensures r.Some? <==> ItemsText(o.items, show).Some?
    ensures r.Some? ==>
              && r.value.id == o.id && r.value.total == o.total && r.value.createdAt == o.createdAt
              && Unescape(r.value.name) == o.name && Unescape(r.value.phone) == o.phone
              && Unescape(r.value.address) == o.address
              && Unescape(r.value.items) == ItemsText(o.items, show).value
              && Safe(r.value)
  {
    match ItemsText(o.items, show)
    case None => None
    case Some(text) =>
      UnescapeEscape(o.name);
      UnescapeEscape(o.phone);
      UnescapeEscape(o.address);
      UnescapeEscape(text);
      Some(Row(o.id, Escape(o.name), Escape(o.phone), Escape(o.address), Escape(text), o.total, o.createdAt))
  }

  /** No text cell of the row contains a markup character. */
  predicate Safe(row: Row) {
    (forall k :: 0 <= k < |row.name| ==> !Markup(row.name[k]))
    && (forall k :: 0 <= k < |row.phone| ==> !Markup(row.phone[k]))
    && (forall k :: 0 <= k < |row.address| ==> !Markup(row.address[k]))
    && (forall k :: 0 <= k < |row.items| ==> !Markup(row.items[k]))
  }

  /** Every order renders when every item of every order is a dict. */
  predicate Renderable(orders: seq<Order>, show: Json -> string) {
    forall i :: 0 <= i < |orders| ==> RowOf(orders[i], show).Some?
  }

  /**
   * The intended table: the placeholder for no orders, otherwise one row
   * per order in the order given (newest first, as listed); None when
   * rendering an order fails.
   */
  function TableOf(orders: seq<Order>, show: Json -> string): (t: Option<Table>)
    ensures t.Some? <==> Renderable(orders, show)
    ensures t == Some(Placeholder) <==> orders == []
    ensures t.Some? && t.value.Rows? ==>
              |t.value.rows| == |orders|
              && forall i :: 0 <= i < |orders| ==> Some(t.value.rows[i]) == RowOf(orders[i], show)
  {
    if orders == [] then Some(Placeholder)
    else if !Renderable(orders, show) then None
    else Some(Rows(seq(|orders|, i requires 0 <= i < |orders| => RowOf(orders[i], show).value)))
  }

  /**
   * What the name `html` denotes inside render_admin_page: the standard
   * html module, or the function's own local variable, first unbound and
   * after the page is assembled a string.
   */
  datatype Binding = HtmlModule | Unbound | PageString

  /**
   * `html.escape(s)` evaluated under a binding of `html`: only the module
   * has an escape function. An unbound local raises UnboundLocalError and a
   * string raises AttributeError (None stands for both).
   */
  function EscapeVia(html: Binding, s: string): (r: Option<string>)
    ensures r.Some? <==> html == HtmlModule
    ensures r.Some? ==> r.value == Escape(s)
  {
    if html == HtmlModule then Some(Escape(s)) else None
  }

  /**
   * The loop of render_admin_page, with `html` bound as given: one row per
   * order, the placeholder row for no orders. When `html` names the module
   * this is the intended table; when it does not, the first order already
   * fails, so only the empty list renders.
   */
  method RenderRows(orders: seq<Order>, show: Json -> string, html: Binding) returns (t: Option<Table>)
    ensures html == HtmlModule ==> t == TableOf(orders, show)
    ensures html != HtmlModule ==> (t.Some? <==> orders == [])
  {
    var rows: seq<Row> := [];
    var i := 0;
    while i < |orders|
      invariant 0 <= i <= |orders|
      invariant |rows| == i
      invariant forall j :: 0 <= j < i ==> Some(rows[j]) == RowOf(orders[j], show)
      invariant html != HtmlModule ==> i == 0
    {
      var o := orders[i];
      var items := ItemsText(o.items, show);
      if items.None? {
        return None;
      }
      var safeItems := EscapeVia(html, items.value);
      if safeItems.None? {
        return None;
      }
      var name := EscapeVia(html, o.name);
      var phone := EscapeVia(html, o.phone);
      var address := EscapeVia(html, o.address);
      assert RowOf(o, show) == Some(Row(o.id, Escape(o.name), Escape(o.phone), Escape(o.address), Escape(items.value), o.total, o.createdAt));
      rows := rows + [Row(o.id, name.value, phone.value, address.value, safeItems.value, o.total, o.createdAt)];
      i := i + 1;
    }
    if rows == [] {
      t := Some(Placeholder);
    } else {
      assert Renderable(orders, show);
      assert rows == seq(|orders|, i requires 0 <= i < |orders| => RowOf(orders[i], show).value);
      t := Some(Rows(rows));
    }
  }

  /**
   * render_admin_page as written: the assignment `html = f"""..."""` after
   * the loop makes `html` a local name of the whole function, so during the
   * loop it is unbound and html.escape fails on the first order. Only an
   * empty list renders, although every list whose items are dicts would
   * render under the intended reading.
   */
  method RenderAsWritten(orders: seq<Order>, show: Json -> string) returns (t: Option<Table>)
    ensures t.Some? <==> orders == []
    ensures orders != [] && Renderable(orders, show) ==>
              t.None? && TableOf(orders, show).Some? && TableOf(orders, show).value.Rows?
  {
    var html := Unbound;
    t := RenderRows(orders, show, html);
    if t.Some? {
      html := PageString;
    }
  }

  /** Every cell of the intended table is free of markup and decodes to the stored text. */
  lemma {:induction false} TableIsSafe(orders: seq<Order>, show: Json -> string, i: nat)
    requires TableOf(orders, show).Some? && TableOf(orders, show).value.Rows? && i < |orders|
    ensures var row := TableOf(orders, show).value.rows[i];
            Safe(row) && Unescape(row.name) == orders[i].name
            && Unescape(row.phone) == orders[i].phone && Unescape(row.address) == orders[i].address
  {
    assert Some(TableOf(orders, show).value.rows[i]) == RowOf(orders[i], show);
  }
}
