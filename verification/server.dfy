/**
 * The request handler of server.py (RequestHandler): route choice by
 * method and path prefix, the admin gate, and the five handlers, over the
 * order table, with HTTP framing and SQLite connections abstracted away.
 */
module Server {
  import opened Wrappers
  import opened Text
  import opened PyJson
  import opened Auth
  import opened Validation
  import opened OrderStore
  import opened StaticPath
  import opened AdminView

  /** Library functions the handler relies on, taken as given (None stands for the exception they raise). */
  datatype Lib = Lib(
    b64decode: string -> Option<seq<bv8>>,       // base64.b64decode
    utf8decode: seq<bv8> -> Option<string>,      // bytes.decode("utf-8")
    jsonLoads: string -> Option<Json>,           // json.loads
    formPairs: string -> seq<(string, string)>,  // the name/value pairs parse_qs reads, in order
    unquote: string -> string,                   // urllib.parse.unquote
    parseInt: string -> Option<int>,             // int(s) for a string s
    show: Json -> string)                        // str(v) for a value v that is not a string

  /** ADMIN_PASSWORD and BASE_DIR, fixed at start-up. */
  datatype Config = Config(adminPassword: string, root: Path)

  /** What exists() and read_bytes() find at a resolved path. */
  datatype FileLookup = Missing | Readable(content: seq<bv8>) | Unreadable

  /** What a request meets besides the table: the UTC clock, whether SQLite works, the files. */
  datatype Env = Env(now: string, dbAvailable: bool, files: Path -> FileLookup)

  datatype Method = GET | POST | OPTIONS | OtherMethod(name: string)

  /** A request: method, target (query included), Authorization header if any, body. */
  datatype Request = Request(verb: Method, path: string, authorization: Option<string>, body: seq<bv8>)

  datatype ContentType = JsonType | HtmlType | TextType | GuessedType

  datatype Body =
    | NoBody
    | JsonError(error: string)           // {"error": ...}
    | JsonStatusOk                       // {"status": "ok"}
    | JsonOrders(orders: seq<Order>)     // {"orders": [...]}
    | AdminHtml(table: Table)
    | PlainText(text: string)
    | FileContent(path: Path, content: seq<bv8>)

  /**
   * A response. Only Reply goes through _set_headers, and so only Reply
   * carries the three CORS headers (AllowOrigin, AllowHeaders,
   * AllowMethods); the 401 and 303 responses are sent without them.
   * Aborted is an exception nothing catches: the connection closes, after
   * the status line and headers when they were already sent.
   */
  datatype Response =
    | Reply(status: int, contentType: ContentType, body: Body)
    | Challenge                          // 401, WWW-Authenticate: Basic realm="Admin"
    | SeeOther(location: string)         // 303 with a Location header
    | NotImplemented                     // 501: BaseHTTPRequestHandler has no do_<METHOD>
    | Aborted(headersSent: Option<int>)

  const AllowOrigin: string := "*"
  const AllowHeaders: string := "Content-Type"
  const AllowMethods: string := "GET, POST, OPTIONS"

  /** The row caps of the two listings. */
  const ApiListLimit: nat := 50
  const AdminListLimit: nat := 100

  /** What SQLite can bind as an INTEGER; a larger Python int raises OverflowError. */
  predicate FitsInt64(x: int) {
    -0x8000_0000_0000_0000 <= x < 0x8000_0000_0000_0000
  }

  datatype Route = Preflight | ListOrders | AdminPage | StaticFile | CreateOrder | DeleteOrder | PostNotFound | Unsupported

  /** do_OPTIONS, do_GET and do_POST: the first matching prefix wins. */
  function RouteOf(m: Method, path: string): (r: Route)
    ensures r == Preflight <==> m == OPTIONS
    ensures r == Unsupported <==> m.OtherMethod?
    ensures r in {ListOrders, AdminPage, StaticFile} <==> m == GET
    ensures r in {CreateOrder, DeleteOrder, PostNotFound} <==> m == POST
    ensures r in {ListOrders, CreateOrder} <==> (m == GET || m == POST) && StartsWith(path, "/api/orders")
    ensures r == StaticFile ==> !StartsWith(path, "/api/orders") && !StartsWith(path, "/admin")
  {
    match m
    case OPTIONS => Preflight
    case GET =>
      if StartsWith(path, "/api/orders") then ListOrders
      else if StartsWith(path, "/admin") then AdminPage
      else StaticFile
    case POST =>
      if StartsWith(path, "/api/orders") then CreateOrder
      else if StartsWith(path, "/admin/delete") then DeleteOrder
      else PostNotFound
    case OtherMethod(_) => Unsupported
  }

  /** The routes behind the credential check. */
  predicate Gated(r: Route) {
    r == AdminPage || r == DeleteOrder
  }

  /**
   * The gate is decided by prefix alone: a GET is gated exactly when its
   * path starts with "/admin" (so "/admin.html" and "/administrator" are
   * too, and never reach the static files), a POST exactly when it starts
   * with "/admin/delete".
   */
  lemma {:induction false} GatedIff(m: Method, path: string)
    ensures Gated(RouteOf(m, path)) <==>
              (m == GET && StartsWith(path, "/admin")) || (m == POST && StartsWith(path, "/admin/delete"))
  {
    if StartsWith(path, "/admin") {
      assert path[2] == 'd';
      assert !StartsWith(path, "/api/orders") by { assert "/api/orders"[2] == 'p'; }
    }
  }

  /** The body of POST /api/orders, decoded: not UTF-8, not JSON, or a verdict on the payload. */
  datatype Intake = Undecodable | InvalidJson | Checked(verdict: Verdict)

  function IntakeOf(body: seq<bv8>, lib: Lib): (r: Intake)
    ensures r == Undecodable <==> lib.utf8decode(body).None?
    ensures r == InvalidJson <==> lib.utf8decode(body).Some? && lib.jsonLoads(lib.utf8decode(body).value).None?
    ensures r.Checked? ==>
              r.verdict == Validate(lib.jsonLoads(lib.utf8decode(body).value).value, lib.show, lib.parseInt)
  {
    match lib.utf8decode(body)
    case None => Undecodable
    case Some(text) =>
      match lib.jsonLoads(text)
      case None => InvalidJson
      case Some(payload) => Checked(Validate(payload, lib.show, lib.parseInt))
  }

  /** parse_qs(text).get(key, [""])[0]: the first non-blank value given for key (parse_qs drops blank ones), else "". */
  function FormValue(pairs: seq<(string, string)>, key: string): (v: string)
    ensures v == [] <==> forall k :: 0 <= k < |pairs| && pairs[k].0 == key ==> pairs[k].1 == []
    ensures v != [] ==>
              exists k :: 0 <= k < |pairs| && pairs[k] == (key, v)
                          && forall j :: 0 <= j < k ==> pairs[j].0 != key || pairs[j].1 == []
  {
    if pairs == [] then []
    else if pairs[0].0 == key && pairs[0].1 != [] then pairs[0].1
    else
      var v := FormValue(pairs[1..], key);
      assert v != [] ==>
               exists k :: 0 <= k < |pairs| && pairs[k] == (key, v)
                           && forall j :: 0 <= j < k ==> pairs[j].0 != key || pairs[j].1 == [] by {
        if v != [] {
          var k :| 0 <= k < |pairs| - 1 && pairs[1..][k] == (key, v)
                   && forall j :: 0 <= j < k ==> pairs[1..][j].0 != key || pairs[1..][j].1 == [];
          forall j | 0 <= j < k + 1 ensures pairs[j].0 != key || pairs[j].1 == [] {
            if j > 0 { assert pairs[j] == pairs[1..][j - 1]; }
          }
          assert pairs[k + 1] == (key, v);
        }
      }
      v
  }

  /** The body of POST /admin/delete, decoded: not UTF-8, an id int() refuses, or the id. */
  datatype DeleteIntake = BodyUndecodable | InvalidId | TargetId(id: int)

  function DeleteIntakeOf(body: seq<bv8>, lib: Lib): (r: DeleteIntake)
    ensures r == BodyUndecodable <==> lib.utf8decode(body).None?
    ensures lib.utf8decode(body).Some? ==>
              var id := lib.parseInt(FormValue(lib.formPairs(lib.utf8decode(body).value), "id"));
              (r == InvalidId <==> id.None?) && (id.Some? ==> r == TargetId(id.value))
  {
    match lib.utf8decode(body)
    case None => BodyUndecodable
    case Some(text) =>
      match lib.parseInt(FormValue(lib.formPairs(text), "id"))
      case None => InvalidId
      case Some(id) => TargetId(id)
  }

  /** The static-file branch of do_GET. Only a path within the root is ever read. */
  function StaticResponse(cfg: Config, lib: Lib, env: Env, target: string): (r: Response)
    ensures r.Reply?
    ensures r.status == 200 <==> r.body.FileContent?
    ensures r.body.FileContent? ==>
              Within(cfg.root, r.body.path)
              && r.body.path == Resolve(cfg.root, lib.unquote(BeforeQuery(target)))
              && env.files(r.body.path) == Readable(r.body.content)
    ensures var p := Resolve(cfg.root, lib.unquote(BeforeQuery(target)));
            && (!Within(cfg.root, p) ==> r == Reply(404, TextType, PlainText("Not found")))
            && (Within(cfg.root, p) && env.files(p).Readable? ==>
                  r == Reply(200, GuessedType, FileContent(p, env.files(p).content)))
            && (Within(cfg.root, p) && env.files(p) == Missing ==> r == Reply(404, TextType, PlainText("Not found")))
            && (Within(cfg.root, p) && env.files(p) == Unreadable ==>
                  r == Reply(500, TextType, PlainText("Failed to read file")))
  {
    var p := Resolve(cfg.root, lib.unquote(BeforeQuery(target)));
    if !Within(cfg.root, p) then Reply(404, TextType, PlainText("Not found"))
    else
      match env.files(p)
      case Missing => Reply(404, TextType, PlainText("Not found"))
      case Unreadable => Reply(500, TextType, PlainText("Failed to read file"))
      case Readable(content) => Reply(200, GuessedType, FileContent(p, content))
  }

  /** "/../" + name is not found (never served) when it leaves the root. */
  lemma {:induction false} TraversalNotFound(cfg: Config, lib: Lib, env: Env, name: string)
    requires Clean(cfg.root) && cfg.root != []
    requires Named(name) && '/' !in name && '?' !in name && name != cfg.root[|cfg.root| - 1]
    requires lib.unquote("/../" + name) == "/../" + name
    ensures StaticResponse(cfg, lib, env, "/../" + name) == Reply(404, TextType, PlainText("Not found"))
  {
    var target := "/../" + name;
    assert '?' !in target by {
      forall k | 0 <= k < |target| ensures target[k] != '?' {
        if k >= 4 { assert target[k] == name[k - 4]; }
      }
    }
    assert BeforeQuery(target) == target;
    ParentSegmentRefused(cfg.root, name);
  }

  /**
   * Every readable entry directly under the root is served to anyone who
   * asks for it by name, whatever it holds (with the default DATA_DIR this
   * includes orders.db and server.py itself): the static branch has no
   * other filter than containment.
   */
  lemma {:induction false} TopLevelFileServed(cfg: Config, lib: Lib, env: Env, name: string, content: seq<bv8>)
    requires Named(name) && '/' !in name && '?' !in name
    requires lib.unquote("/" + name) == "/" + name
    requires env.files(cfg.root + [name]) == Readable(content)
    ensures StaticResponse(cfg, lib, env, "/" + name) == Reply(200, GuessedType, FileContent(cfg.root + [name], content))
  {
    var target := "/" + name;
    assert '?' !in target by {
      forall k | 0 <= k < |target| ensures target[k] != '?' {
        if k >= 1 { assert target[k] == name[k - 1]; }
      }
    }
    assert BeforeQuery(target) == target;
    ResolveTopLevel(cfg.root, name);
  }

  /** The admin credential check for a request's Authorization header. */
  predicate Authorized(authorization: Option<string>, cfg: Config, lib: Lib) {
    IsAuthorized(authorization, cfg.adminPassword, lib.b64decode, lib.utf8decode)
  }

  /** The reply of handle_list_orders for the table's rows: the 50 newest, newest first, or a database error. */
  function ListReply(rows: seq<Order>, dbAvailable: bool): (r: Response)
    ensures r.Reply? && r.contentType == JsonType
    ensures r.status == 200 <==> dbAvailable
    ensures r.status == 200 ==>
              r.body.JsonOrders? && |r.body.orders| == (if ApiListLimit < |rows| then ApiListLimit else |rows|)
              && forall j :: 0 <= j < |r.body.orders| ==> r.body.orders[j] == rows[|rows| - 1 - j]
    ensures r.status != 200 ==> r == Reply(500, JsonType, JsonError("Database error"))
  {
    if dbAvailable then Reply(200, JsonType, JsonOrders(Newest(rows, ApiListLimit)))
    else Reply(500, JsonType, JsonError("Database error"))
  }

  /**
   * The reply of handle_admin_page for the table's rows: the 100 newest as
   * the admin table, a database error, or, when an order's items cannot be
   * labelled, an exception after the 200 headers are out.
   */
  function AdminReply(rows: seq<Order>, dbAvailable: bool, show: Json -> string): (r: Response)
    ensures !dbAvailable ==> r == Reply(500, TextType, PlainText("Database error"))
    ensures dbAvailable && Renderable(Newest(rows, AdminListLimit), show) ==>
              r.Reply? && r.status == 200 && r.contentType == HtmlType
              && r.body == AdminHtml(TableOf(Newest(rows, AdminListLimit), show).value)
    ensures dbAvailable && !Renderable(Newest(rows, AdminListLimit), show) ==> r == Aborted(Some(200))
  {
    if !dbAvailable then Reply(500, TextType, PlainText("Database error"))
    else
      var t := TableOf(Newest(rows, AdminListLimit), show);
      if t.Some? then Reply(200, HtmlType, AdminHtml(t.value)) else Aborted(Some(200))
  }

  /**
   * The reply of handle_create_order for a decoded body, given whether
   * SQLite is usable and the last id it handed out.
   */
  function CreateReply(intake: Intake, dbAvailable: bool, lastId: int): (r: Response)
    ensures r.Reply? ==> r == Reply(201, JsonType, JsonStatusOk)
                         || (r.status in {400, 500} && r.contentType == JsonType && r.body.JsonError?)
    ensures intake == Undecodable || intake == Checked(Raised) ==> r == Aborted(None)
    ensures intake == InvalidJson ==> r == Reply(400, JsonType, JsonError("Invalid JSON"))
    ensures intake == Checked(MissingFields) ==> r == Reply(400, JsonType, JsonError("Missing fields"))
    ensures r == Reply(201, JsonType, JsonStatusOk) <==>
              intake.Checked? && intake.verdict.Accepted? && FitsInt64(intake.verdict.order.total)
              && dbAvailable && lastId < MaxRowId
    ensures intake.Checked? && intake.verdict.Accepted? && (!dbAvailable || lastId >= MaxRowId)
            && (dbAvailable ==> FitsInt64(intake.verdict.order.total)) ==>
              r == Reply(500, JsonType, JsonError("Database error"))
    ensures intake.Checked? && intake.verdict.Accepted? && dbAvailable && !FitsInt64(intake.verdict.order.total) ==>
              r == Aborted(None)
  {
    match intake
    case Undecodable => Aborted(None)
    case InvalidJson => Reply(400, JsonType, JsonError("Invalid JSON"))
    case Checked(Raised) => Aborted(None)
    case Checked(MissingFields) => Reply(400, JsonType, JsonError("Missing fields"))
    case Checked(Accepted(o)) =>
      // sqlite3 cannot bind a total outside int64: OverflowError, not a sqlite3.Error
      if dbAvailable && !FitsInt64(o.total) then Aborted(None)
      else if dbAvailable && lastId < MaxRowId then Reply(201, JsonType, JsonStatusOk)
      else Reply(500, JsonType, JsonError("Database error"))
  }

  /** The reply of handle_delete_order for a decoded body, given whether SQLite is usable. */
  function DeleteReply(intake: DeleteIntake, dbAvailable: bool): (r: Response)
    ensures r.Reply? ==> r.status in {400, 500} && r.contentType == TextType && r.body.PlainText?
    ensures intake == BodyUndecodable ==> r == Aborted(None)
    ensures intake == InvalidId ==> r == Reply(400, TextType, PlainText("Invalid order id"))
    ensures r == SeeOther("/admin") <==> intake.TargetId? && FitsInt64(intake.id) && dbAvailable
    ensures intake.TargetId? && !dbAvailable ==> r == Reply(500, TextType, PlainText("Database error"))
    ensures intake.TargetId? && dbAvailable && !FitsInt64(intake.id) ==> r == Aborted(None)
  {
    match intake
    case BodyUndecodable => Aborted(None)
    case InvalidId => Reply(400, TextType, PlainText("Invalid order id"))
    case TargetId(id) =>
      if !dbAvailable then Reply(500, TextType, PlainText("Database error"))
      else if !FitsInt64(id) then Aborted(None)
      else SeeOther("/admin")
  }

  /** handle_list_orders. */
  method HandleList(lib: Lib, env: Env, store: OrderTable) returns (resp: Response)
    requires store.Valid()
    ensures resp == ListReply(store.rows, env.dbAvailable)
  {
    var r := store.ListRecent(ApiListLimit, env.dbAvailable);
    if r.Done? {
      resp := Reply(200, JsonType, JsonOrders(r.value));
    } else {
      resp := Reply(500, JsonType, JsonError("Database error"));
    }
  }

  /** handle_admin_page (past the gate). */
  method HandleAdmin(lib: Lib, env: Env, store: OrderTable) returns (resp: Response)
    requires store.Valid()
    ensures resp == AdminReply(store.rows, env.dbAvailable, lib.show)
  {
    var r := store.ListRecent(AdminListLimit, env.dbAvailable);
    if r.DatabaseError? {
      return Reply(500, TextType, PlainText("Database error"));
    }
    var t := RenderRows(r.value, lib.show, HtmlModule);
    if t.Some? {
      resp := Reply(200, HtmlType, AdminHtml(t.value));
    } else {
      // the 200 status line and headers are out before the page is rendered
      resp := Aborted(Some(200));
    }
  }

  /**
   * handle_create_order: the reply CreateReply gives; an order is stored,
   * under the next id and the request's time, exactly when that reply is 201.
   */
  method HandleCreate(body: seq<bv8>, lib: Lib, env: Env, store: OrderTable) returns (resp: Response)
    requires store.Valid()
    modifies store
    ensures store.Valid()
    ensures resp == CreateReply(IntakeOf(body, lib), env.dbAvailable, old(store.lastId))
    ensures resp == Reply(201, JsonType, JsonStatusOk) ==>
              store.rows == old(store.rows) + [Stored(IntakeOf(body, lib).verdict.order, old(store.lastId) + 1, env.now)]
              && store.lastId == old(store.lastId) + 1
    ensures resp != Reply(201, JsonType, JsonStatusOk) ==>
              store.rows == old(store.rows) && store.lastId == old(store.lastId)
  {
    match IntakeOf(body, lib)
    case Undecodable =>
      resp := Aborted(None);
    case InvalidJson =>
      resp := Reply(400, JsonType, JsonError("Invalid JSON"));
    case Checked(Raised) =>
      resp := Aborted(None);
    case Checked(MissingFields) =>
      resp := Reply(400, JsonType, JsonError("Missing fields"));
    case Checked(Accepted(o)) =>
      if env.dbAvailable && !FitsInt64(o.total) {
        resp := Aborted(None);
      } else {
        var r := store.Insert(o, env.now, env.dbAvailable);
        if r.Done? {
          resp := Reply(201, JsonType, JsonStatusOk);
        } else {
          resp := Reply(500, JsonType, JsonError("Database error"));
        }
      }
  }

  /**
   * handle_delete_order (past the gate): the reply DeleteReply gives; the
   * rows with that id are gone exactly when it is the redirect.
   */
  method HandleDelete(body: seq<bv8>, lib: Lib, env: Env, store: OrderTable) returns (resp: Response)
    requires store.Valid()
    modifies store
    ensures store.Valid() && store.lastId == old(store.lastId)
    ensures resp == DeleteReply(DeleteIntakeOf(body, lib), env.dbAvailable)
    ensures resp == SeeOther("/admin") ==> store.rows == Without(old(store.rows), DeleteIntakeOf(body, lib).id)
    ensures resp != SeeOther("/admin") ==> store.rows == old(store.rows)
  {
    match DeleteIntakeOf(body, lib)
    case BodyUndecodable =>
      resp := Aborted(None);
    case InvalidId =>
      resp := Reply(400, TextType, PlainText("Invalid order id"));
    case TargetId(id) =>
      if env.dbAvailable && !FitsInt64(id) {
        resp := Aborted(None);
      } else {
        var ok := store.Delete(id, env.dbAvailable);
        if ok {
          resp := SeeOther("/admin");
        } else {
          resp := Reply(500, TextType, PlainText("Database error"));
        }
      }
  }

  /**
   * do_GET: the JSON listing, the admin page behind the credential check,
   * or a static file. A GET never changes the table.
   */
  method DoGet(path: string, authorization: Option<string>, cfg: Config, lib: Lib, env: Env, store: OrderTable)
    returns (resp: Response)
    requires store.Valid()
    ensures RouteOf(GET, path) == ListOrders ==> resp == ListReply(store.rows, env.dbAvailable)
    ensures RouteOf(GET, path) == AdminPage ==>
              resp == if Authorized(authorization, cfg, lib) then AdminReply(store.rows, env.dbAvailable, lib.show)
                      else Challenge
    ensures RouteOf(GET, path) == StaticFile ==> resp == StaticResponse(cfg, lib, env, path)
    ensures resp.Reply? && resp.body.FileContent? ==> Within(cfg.root, resp.body.path)
  {
    var route := RouteOf(GET, path);
    if route == ListOrders {
      resp := HandleList(lib, env, store);
    } else if route == AdminPage {
      if !Authorized(authorization, cfg, lib) {
        resp := Challenge;
      } else {
        resp := HandleAdmin(lib, env, store);
      }
    } else {
      resp := StaticResponse(cfg, lib, env, path);
    }
  }

  /**
   * do_POST: a new order, a delete behind the credential check, or 404.
   * The table changes only through an accepted order or an authorised
   * delete.
   */
  method DoPost(path: string, authorization: Option<string>, body: seq<bv8>,
                cfg: Config, lib: Lib, env: Env, store: OrderTable) returns (resp: Response)
    requires store.Valid()
    modifies store
    ensures store.Valid()
    ensures RouteOf(POST, path) == DeleteOrder && !Authorized(authorization, cfg, lib) ==>
              resp == Challenge && store.rows == old(store.rows) && store.lastId == old(store.lastId)
    ensures RouteOf(POST, path) == PostNotFound ==>
              resp == Reply(404, TextType, PlainText("Not found"))
              && store.rows == old(store.rows) && store.lastId == old(store.lastId)
    ensures store.rows != old(store.rows) || store.lastId != old(store.lastId) ==>
              (RouteOf(POST, path) == CreateOrder && resp == Reply(201, JsonType, JsonStatusOk))
              || (RouteOf(POST, path) == DeleteOrder && Authorized(authorization, cfg, lib)
                  && resp == SeeOther("/admin"))
    ensures RouteOf(POST, path) == CreateOrder ==>
              resp == CreateReply(IntakeOf(body, lib), env.dbAvailable, old(store.lastId))
    ensures RouteOf(POST, path) == CreateOrder && resp == Reply(201, JsonType, JsonStatusOk) ==>
              store.rows == old(store.rows) + [Stored(IntakeOf(body, lib).verdict.order, old(store.lastId) + 1, env.now)]
              && store.lastId == old(store.lastId) + 1
    ensures RouteOf(POST, path) == DeleteOrder && Authorized(authorization, cfg, lib) ==>
              resp == DeleteReply(DeleteIntakeOf(body, lib), env.dbAvailable)
    ensures RouteOf(POST, path) == DeleteOrder && resp == SeeOther("/admin") ==>
              store.rows == Without(old(store.rows), DeleteIntakeOf(body, lib).id)
    ensures !(resp.Reply? && resp.body.FileContent?)
  {
    var route := RouteOf(POST, path);
    if route == CreateOrder {
      resp := HandleCreate(body, lib, env, store);
    } else if route == DeleteOrder {
      if !Authorized(authorization, cfg, lib) {
        resp := Challenge;
      } else {
        resp := HandleDelete(body, lib, env, store);
      }
    } else {
      resp := Reply(404, TextType, PlainText("Not found"));
    }
  }

  /**
   * One request, dispatched by method as BaseHTTPRequestHandler does. The
   * admin routes answer 401 and leave the table alone unless the
   * credential check passes; the table changes only through an accepted
   * order or an authorised delete; a file is served only from within the
   * root; a method without a do_ handler gets 501.
   */
  method Handle(req: Request, cfg: Config, lib: Lib, env: Env, store: OrderTable) returns (resp: Response)
    requires store.Valid()
    modifies store
    ensures store.Valid()
    ensures Gated(RouteOf(req.verb, req.path)) && !Authorized(req.authorization, cfg, lib) ==>
              resp == Challenge && store.rows == old(store.rows) && store.lastId == old(store.lastId)
    ensures store.rows != old(store.rows) || store.lastId != old(store.lastId) ==>
              (RouteOf(req.verb, req.path) == CreateOrder && resp == Reply(201, JsonType, JsonStatusOk))
              || (RouteOf(req.verb, req.path) == DeleteOrder && Authorized(req.authorization, cfg, lib)
                  && resp == SeeOther("/admin"))
    ensures resp.Reply? && resp.body.FileContent? ==> Within(cfg.root, resp.body.path)
    ensures RouteOf(req.verb, req.path) == Preflight ==> resp == Reply(204, JsonType, NoBody)
    ensures RouteOf(req.verb, req.path) == PostNotFound ==> resp == Reply(404, TextType, PlainText("Not found"))
    ensures RouteOf(req.verb, req.path) == Unsupported ==> resp == NotImplemented
    ensures RouteOf(req.verb, req.path) == StaticFile ==> resp == StaticResponse(cfg, lib, env, req.path)
    ensures RouteOf(req.verb, req.path) == ListOrders ==> resp == ListReply(old(store.rows), env.dbAvailable)
    ensures RouteOf(req.verb, req.path) == AdminPage && Authorized(req.authorization, cfg, lib) ==>
              resp == AdminReply(old(store.rows), env.dbAvailable, lib.show)
    ensures RouteOf(req.verb, req.path) == CreateOrder ==>
              resp == CreateReply(IntakeOf(req.body, lib), env.dbAvailable, old(store.lastId))
    ensures RouteOf(req.verb, req.path) == CreateOrder && resp == Reply(201, JsonType, JsonStatusOk) ==>
              store.rows == old(store.rows) + [Stored(IntakeOf(req.body, lib).verdict.order, old(store.lastId) + 1, env.now)]
              && store.lastId == old(store.lastId) + 1
    ensures RouteOf(req.verb, req.path) == DeleteOrder && Authorized(req.authorization, cfg, lib) ==>
              resp == DeleteReply(DeleteIntakeOf(req.body, lib), env.dbAvailable)
    ensures RouteOf(req.verb, req.path) == DeleteOrder && resp == SeeOther("/admin") ==>
              store.rows == Without(old(store.rows), DeleteIntakeOf(req.body, lib).id)
  {
    match req.verb
    case OPTIONS =>
      resp := Reply(204, JsonType, NoBody);
    case GET =>
      resp := DoGet(req.path, req.authorization, cfg, lib, env, store);
    case POST =>
      resp := DoPost(req.path, req.authorization, req.body, cfg, lib, env, store);
    case OtherMethod(_) =>
      resp := NotImplemented;
  }
}
