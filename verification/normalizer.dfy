/**
 * The request normaliser: classifies the request path into one of the
 * historical tempauth shapes and extracts the (tenant hint, username,
 * password) triple from the headers, or rejects the request.
 */
module Normalizer {
  import opened Wrappers
  import opened PyStr

  /** The recognised path shapes, in the order they are tried. */
  datatype Shape =
    | V1Shape(tenant: string)  // `/v1/<tenant>/auth`
    | AuthShape                // `/auth...` or `/v1.0...`
    | BadShape                 // anything else

  /** The normaliser's verdict. */
  datatype Normalized =
    | Accepted(tenantHint: Option<string>, username: string, password: string)
    | RejectUnauthorized
    | RejectBadRequest

  /** `req.path[1:]`: the path without its leading character. */
  function Rest(path: string): string
  {
    if |path| == 0 then "" else path[1..]
  }

  /** `req.path[1:].split('/', 2)` and the shape test on its segments. */
  function ShapeOf(path: string): Shape
  {
    var segs := Split(Rest(path), '/', 2);
    if |segs| == 3 && segs[0] == "v1" && segs[2] == "auth" then V1Shape(segs[1])
    else if segs[0] == "auth" || segs[0] == "v1.0" then AuthShape
    else BadShape
  }

  /** The `/v1/<tenant>/auth` shape read directly off the string: `v1/`, a slash-free tenant, `/auth`. */
  predicate IsV1Path(rest: string)
  {
    |rest| >= 8 && rest[..3] == "v1/" && rest[|rest| - 5..] == "/auth" && '/' !in rest[3..|rest| - 5]
  }

  /** The tenant segment of a `/v1/<tenant>/auth` path. */
  function V1Tenant(rest: string): string
    requires IsV1Path(rest)
  {
    rest[3..|rest| - 5]
  }

  /** The `auth` and `v1.0` shapes read directly off the string: that word, alone or followed by a slash. */
  predicate IsAuthPath(rest: string)
  {
    rest == "auth" || rest == "v1.0" ||
    (|rest| > 4 && rest[..5] == "auth/") || (|rest| > 4 && rest[..5] == "v1.0/")
  }

  /** A v1 path is `v1/` + tenant + `/auth` for a slash-free tenant, and nothing else is. */
  lemma V1PathParts(rest: string, t: string)
    ensures IsV1Path(rest) && V1Tenant(rest) == t <==> rest == "v1/" + t + "/auth" && '/' !in t
  {
    if rest == "v1/" + t + "/auth" {
      assert rest[..3] == "v1/" && rest[|rest| - 5..] == "/auth" && rest[3..|rest| - 5] == t;
    }
    if IsV1Path(rest) && V1Tenant(rest) == t {
      assert rest == rest[..3] + rest[3..|rest| - 5] + rest[|rest| - 5..];
    }
  }

  /** The three v1 segments joined with slashes. */
  lemma JoinV1(t: string)
    ensures Join(["v1", t, "auth"], '/') == "v1/" + t + "/auth"
  {
    var r := ["v1", t, "auth"];
    assert r[1..] == [t, "auth"] && r[1..][1..] == ["auth"];
    calc {
      Join(r, '/');
      "v1" + "/" + Join([t, "auth"], '/');
      "v1" + "/" + (t + "/" + Join(["auth"], '/'));
      "v1" + "/" + (t + "/" + "auth");
    }
    assert "v1" + "/" == "v1/" && "/" + "auth" == "/auth";
  }

  /** Segments `v1`, t, `auth` come only from a v1 path with tenant t. */
  lemma V1SegmentsFromV1Path(rest: string)
    requires var segs := Split(rest, '/', 2); |segs| == 3 && segs[0] == "v1" && segs[2] == "auth"
    ensures IsV1Path(rest) && V1Tenant(rest) == Split(rest, '/', 2)[1]
  {
    var segs := Split(rest, '/', 2);
    SplitIsSplitOf(rest, '/', 2);
    assert segs == ["v1", segs[1], "auth"];
    JoinV1(segs[1]);
    V1PathParts(rest, segs[1]);
  }

  /** A v1 path with tenant t splits into `v1`, t, `auth`. */
  lemma V1PathToSegments(rest: string)
    requires IsV1Path(rest)
    ensures Split(rest, '/', 2) == ["v1", V1Tenant(rest), "auth"]
  {
    var t := V1Tenant(rest);
    V1PathParts(rest, t);
    JoinV1(t);
    assert IsSplitOf(["v1", t, "auth"], rest, '/', 2);
    SplitOfIsSplit(["v1", t, "auth"], rest, '/', 2);
  }

  /** The v1 shape is recognised exactly for the paths `v1/<tenant>/auth` with a slash-free tenant. */
  lemma ShapeOfV1(path: string)
    ensures ShapeOf(path).V1Shape? <==> IsV1Path(Rest(path))
    ensures IsV1Path(Rest(path)) ==> ShapeOf(path) == V1Shape(V1Tenant(Rest(path)))
  {
    var rest := Rest(path);
    var segs := Split(rest, '/', 2);
    if |segs| == 3 && segs[0] == "v1" && segs[2] == "auth" {
      V1SegmentsFromV1Path(rest);
    }
    if IsV1Path(rest) {
      V1PathToSegments(rest);
    }
  }

  /** The auth shape is recognised exactly for `auth` or `v1.0` paths that are not v1 paths. */
  lemma ShapeOfAuth(path: string)
    ensures ShapeOf(path) == AuthShape <==> !IsV1Path(Rest(path)) && IsAuthPath(Rest(path))
  {
    var rest := Rest(path);
    ShapeOfV1(path);
    SplitHead(rest, '/', 2, "auth");
    SplitHead(rest, '/', 2, "v1.0");
  }

  /** `req.headers.get(name)`. */
  function Get(headers: map<string, string>, name: string): Option<string>
  {
    if name in headers then Some(headers[name]) else None
  }

  /**
   * `headers.get(n0) or headers.get(n1) or ...`: the value of the first
   * truthy header, or the value of the last one when none is truthy.
   */
  function FirstTruthy(headers: map<string, string>, names: seq<string>): Option<string>
    requires |names| >= 1
  {
    if |names| == 1 then Get(headers, names[0])
    else Or(Get(headers, names[0]), FirstTruthy(headers, names[1..]))
  }

  /** Precedence of a fallback chain: the earliest present, non-empty header wins. */
  lemma {:induction false} FirstTruthyPrecedence(headers: map<string, string>, names: seq<string>, i: nat)
    requires i < |names| && Truthy(Get(headers, names[i]))
    requires forall j | 0 <= j < i :: !Truthy(Get(headers, names[j]))
    ensures FirstTruthy(headers, names) == Get(headers, names[i])
  {
    if i > 0 {
      assert !Truthy(Get(headers, names[0]));
      FirstTruthyPrecedence(headers, names[1..], i - 1);
    }
  }

  /** A fallback chain yields a usable value only if one of its headers is present and non-empty. */
  lemma {:induction false} FirstTruthyNone(headers: map<string, string>, names: seq<string>)
    requires |names| >= 1
    ensures Truthy(FirstTruthy(headers, names)) <==> exists i | 0 <= i < |names| :: Truthy(Get(headers, names[i]))
  {
    if |names| > 1 {
      FirstTruthyNone(headers, names[1..]);
      if exists i | 0 <= i < |names| :: Truthy(Get(headers, names[i])) {
        var i :| 0 <= i < |names| && Truthy(Get(headers, names[i]));
        if i > 0 { assert names[1..][i - 1] == names[i]; }
      }
      if exists i | 0 <= i < |names| - 1 :: Truthy(Get(headers, names[1..][i])) {
        var i :| 0 <= i < |names| - 1 && Truthy(Get(headers, names[1..][i]));
        assert names[i + 1] == names[1..][i];
      }
    }
  }

  /** Username headers, most preferred first. */
  function UserHeaders(shape: Shape): (names: seq<string>)
    ensures |names| == 2 && {names[0], names[1]} == {"x-storage-user", "x-auth-user"}
    ensures names[0] == "x-storage-user" <==> shape.V1Shape?
  {
    if shape.V1Shape? then ["x-storage-user", "x-auth-user"] else ["x-auth-user", "x-storage-user"]
  }

  /** Password headers, most preferred first. */
  function PasswordHeaders(shape: Shape): (names: seq<string>)
    ensures |names| == 2 && {names[0], names[1]} == {"x-storage-pass", "x-auth-key"}
    ensures names[0] == "x-storage-pass" <==> shape.V1Shape?
  {
    if shape.V1Shape? then ["x-storage-pass", "x-auth-key"] else ["x-auth-key", "x-storage-pass"]
  }

  /** The final check: no usable username or password is an authentication failure. */
  function Credentials(hint: Option<string>, user: Option<string>, password: Option<string>): (r: Normalized)
    ensures r.Accepted? <==> Truthy(user) && Truthy(password)
    ensures r.Accepted? ==> r == Accepted(hint, user.value, password.value)
    ensures !r.Accepted? ==> r == RejectUnauthorized
  {
    if !Truthy(user) || !Truthy(password) then RejectUnauthorized
    else Accepted(hint, user.value, password.value)
  }

  /** The normaliser, in the order the handler performs its steps. */
  function Normalize(path: string, headers: map<string, string>): (r: Normalized)
    ensures r.Accepted? ==> r.username != "" && r.password != ""
  {
    var shape := ShapeOf(path);
    match shape
    case BadShape => RejectBadRequest
    case V1Shape(tenant) =>
      var user := FirstTruthy(headers, UserHeaders(shape));
      var password := FirstTruthy(headers, PasswordHeaders(shape));
      if Truthy(user) && ':' in user.value then
        var parts := Split(user.value, ':', 1);
        if tenant != parts[0] then RejectUnauthorized
        else Credentials(Some(tenant), Some(parts[1]), password)
      else Credentials(Some(tenant), user, password)
    case AuthShape =>
      var user := FirstTruthy(headers, UserHeaders(shape));
      var password := FirstTruthy(headers, PasswordHeaders(shape));
      if Truthy(user) && ':' in user.value then
        var parts := Split(user.value, ':', 1);
        Credentials(Some(parts[0]), Some(parts[1]), password)
      else Credentials(None, user, password)
  }

  /** A request is malformed exactly when its path has neither recognised shape; headers play no part. */
  lemma BadRequestExactly(path: string, headers: map<string, string>)
    ensures Normalize(path, headers) == RejectBadRequest <==> !IsV1Path(Rest(path)) && !IsAuthPath(Rest(path))
  {
    ShapeOfV1(path);
    ShapeOfAuth(path);
  }

  /** `/v1/a/b/auth` is not the v1 shape: the third segment is `b/auth`. */
  lemma ExtraSegmentIsBadRequest(headers: map<string, string>)
    ensures Normalize("/v1/a/b/auth", headers) == RejectBadRequest
  {
    var rest := Rest("/v1/a/b/auth");
    assert rest == "v1/a/b/auth";
    assert rest[3..|rest| - 5][1] == '/';
    assert rest[..5][0] == 'v' && rest[..5][1] == '1' && rest[..5][2] == '/';
    BadRequestExactly("/v1/a/b/auth", headers);
  }

  /**
   * In the v1 shape, a username carrying a tenant (up to its first colon)
   * other than the path's tenant is an authentication failure, never a
   * malformed request.
   */
  lemma V1TenantMismatch(path: string, headers: map<string, string>)
    requires IsV1Path(Rest(path))
    requires var user := FirstTruthy(headers, UserHeaders(V1Shape(V1Tenant(Rest(path)))));
      Truthy(user) && ':' in user.value && Split(user.value, ':', 1)[0] != V1Tenant(Rest(path))
    ensures Normalize(path, headers) == RejectUnauthorized
  {
    ShapeOfV1(path);
  }

  /**
   * What an accepted v1 request carries: the path's tenant as hint, the
   * preferred password, and a username that is either the preferred
   * username header itself (colon-free) or that header with the path's
   * tenant and a colon in front.
   */
  lemma V1Accepted(path: string, headers: map<string, string>)
    requires IsV1Path(Rest(path))
    ensures var t := V1Tenant(Rest(path));
      var user := FirstTruthy(headers, UserHeaders(V1Shape(t)));
      var password := FirstTruthy(headers, PasswordHeaders(V1Shape(t)));
      var r := Normalize(path, headers);
      r != RejectBadRequest &&
      (r.Accepted? ==>
        r.tenantHint == Some(t) && password == Some(r.password) &&
        ((user == Some(r.username) && ':' !in r.username) || user == Some(t + ":" + r.username)))
  {
    ShapeOfV1(path);
    var t := V1Tenant(Rest(path));
    var user := FirstTruthy(headers, UserHeaders(V1Shape(t)));
    if Truthy(user) && ':' in user.value {
      JoinSplit(user.value, ':', 1);
    }
  }

  /** Round trip for the v1 shape: headers built from a username (bare or prefixed with the path's tenant) give it back. */
  lemma V1Accepts(path: string, headers: map<string, string>, username: string, prefixed: bool)
    requires IsV1Path(Rest(path))
    requires var t := V1Tenant(Rest(path));
      username != "" && (prefixed ==> ':' !in t) && (!prefixed ==> ':' !in username) &&
      FirstTruthy(headers, UserHeaders(V1Shape(t))) == Some(if prefixed then t + ":" + username else username) &&
      Truthy(FirstTruthy(headers, PasswordHeaders(V1Shape(t))))
    ensures var t := V1Tenant(Rest(path));
      Normalize(path, headers) ==
        Accepted(Some(t), username, FirstTruthy(headers, PasswordHeaders(V1Shape(t))).value)
  {
    ShapeOfV1(path);
    if prefixed {
      SplitOnceOf(V1Tenant(Rest(path)), ':', username);
    }
  }

  /**
   * What an accepted `/auth` or `/v1.0` request carries: the preferred
   * password, and either no hint and a colon-free username equal to the
   * preferred username header, or that header split at its first colon into
   * tenant hint and username.
   */
  lemma AuthAccepted(path: string, headers: map<string, string>)
    requires !IsV1Path(Rest(path)) && IsAuthPath(Rest(path))
    ensures var user := FirstTruthy(headers, UserHeaders(AuthShape));
      var password := FirstTruthy(headers, PasswordHeaders(AuthShape));
      var r := Normalize(path, headers);
      r != RejectUnauthorized || !Truthy(user) || !Truthy(password) ||
        (':' in user.value && Split(user.value, ':', 1)[1] == "")
    ensures var user := FirstTruthy(headers, UserHeaders(AuthShape));
      var password := FirstTruthy(headers, PasswordHeaders(AuthShape));
      var r := Normalize(path, headers);
      r != RejectBadRequest &&
      (r.Accepted? ==>
        password == Some(r.password) &&
        match r.tenantHint
        case None => user == Some(r.username) && ':' !in r.username
        case Some(t) => user == Some(t + ":" + r.username) && ':' !in t)
  {
    ShapeOfAuth(path);
    var user := FirstTruthy(headers, UserHeaders(AuthShape));
    if Truthy(user) && ':' in user.value {
      SplitIsSplitOf(user.value, ':', 1);
      var parts := Split(user.value, ':', 1);
      assert parts[1..] == [parts[1]];
    }
  }

  /** Round trip for the auth shapes: headers built from an optional tenant and a username give both back. */
  lemma AuthAccepts(path: string, headers: map<string, string>, hint: Option<string>, username: string)
    requires !IsV1Path(Rest(path)) && IsAuthPath(Rest(path))
    requires username != "" && Truthy(FirstTruthy(headers, PasswordHeaders(AuthShape)))
    requires match hint
      case None => ':' !in username && FirstTruthy(headers, UserHeaders(AuthShape)) == Some(username)
      case Some(t) => ':' !in t && FirstTruthy(headers, UserHeaders(AuthShape)) == Some(t + ":" + username)
    ensures Normalize(path, headers) ==
      Accepted(hint, username, FirstTruthy(headers, PasswordHeaders(AuthShape)).value)
  {
    ShapeOfAuth(path);
    if hint.Some? {
      SplitOnceOf(hint.value, ':', username);
    }
  }

  /** A recognised request without a usable username or password is an authentication failure. */
  lemma MissingCredentials(path: string, headers: map<string, string>)
    requires ShapeOf(path) != BadShape
    requires !Truthy(FirstTruthy(headers, UserHeaders(ShapeOf(path)))) ||
             !Truthy(FirstTruthy(headers, PasswordHeaders(ShapeOf(path))))
    ensures Normalize(path, headers) == RejectUnauthorized
  {
  }
}
