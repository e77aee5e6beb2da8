/** The edge middleware of middleware.ts: the route classifier
    `matchesRoute`, its own case-insensitive role ranking, and the decision
    taken for every request. The JWT payload arrives already decoded, as its
    optional `role` claim. */
module Middleware {
  import opened Wrappers
  import opened Types
  import opened Text
  import Permissions

  /** One unit of a compiled route pattern: a literal character, or a
      `[name]` segment, which the regex turns into `[^/]+`. */
  datatype Tok = Char(c: char) | Param

  /** The position just after the `]` that closes a `[name]` starting at
      `s[0]`, when the name is non-empty (`\[([^\]]+)\]`). */
  function ParamEnd(s: string): (r: Option<nat>)
    ensures r.Some? ==> 3 <= r.value <= |s| && s[0] == '[' && s[r.value - 1] == ']'
    ensures r.Some? ==> forall i :: 1 <= i < r.value - 1 ==> s[i] != ']'
  {
    if |s| < 3 || s[0] != '[' || s[1] == ']' then None
    else CloseFrom(s, 2)
  }

  function CloseFrom(s: string, i: nat): (r: Option<nat>)
    requires 2 <= i <= |s| && s[0] == '['
    requires forall k :: 1 <= k < i ==> s[k] != ']'
    ensures r.Some? ==> i < r.value <= |s| && s[r.value - 1] == ']'
    ensures r.Some? ==> forall k :: 1 <= k < r.value - 1 ==> s[k] != ']'
    decreases |s| - i
  {
    if i == |s| then None
    else if s[i] == ']' then Some(i + 1)
    else CloseFrom(s, i + 1)
  }

  /** The pattern with every `[name]` made a parameter (the first
      `replace` of `matchesRoute`); escaping `/` does not change what is
      matched. */
  function Compile(pattern: string): (r: seq<Tok>)
    ensures |r| <= |pattern|
    decreases |pattern|
  {
    if pattern == [] then []
    else match ParamEnd(pattern)
      case Some(n) => [Param] + Compile(pattern[n..])
      case None => [Char(pattern[0])] + Compile(pattern[1..])
  }

  /** Whether the whole of `path` matches the tokens (the regex is anchored
      with `^` and `$`). A parameter takes one or more characters other
      than `/`, as many as the rest of the pattern needs. */
  predicate MatchFrom(toks: seq<Tok>, path: string)
    decreases |toks|, 1, 0
  {
    if toks == [] then path == []
    else match toks[0]
      case Char(c) => path != [] && path[0] == c && MatchFrom(toks[1..], path[1..])
      case Param => AnyRun(toks[1..], path, 1)
  }

  /** Some parameter run `path[..j]` with `j >= k` leaves a rest that
      `rest` matches. */
  predicate AnyRun(rest: seq<Tok>, path: string, k: nat)
    requires k >= 1
    decreases |rest| + 1, 0, |path| - k
  {
    k <= |path| && path[k - 1] != '/' && (MatchFrom(rest, path[k..]) || AnyRun(rest, path, k + 1))
  }

  /** The tokens of a pattern without parameters. */
  function Chars(s: string): (r: seq<Tok>)
    ensures |r| == |s|
  {
    if s == [] then [] else [Char(s[0])] + Chars(s[1..])
  }

  /** A run of ordinary characters compiles to itself. */
  lemma {:induction false} CompileChars(a: string, b: string)
    requires '[' !in a
    ensures Compile(a + b) == Chars(a) + Compile(b)
  {
    if a != [] {
      assert a == [a[0]] + a[1..];
      assert (a + b)[0] == a[0];
      assert ParamEnd(a + b).None?;
      assert (a + b)[1..] == a[1..] + b;
      CompileChars(a[1..], b);
    } else {
      assert a + b == b;
    }
  }

  /** `[id]` compiles to one parameter. */
  lemma CompileParam(b: string)
    ensures Compile("[id]" + b) == [Param] + Compile(b)
  {
    var s := "[id]" + b;
    assert s[0] == '[' && s[1] == 'i' && s[2] == 'd' && s[3] == ']';
    assert CloseFrom(s, 3) == Some(4);
    assert ParamEnd(s) == Some(4);
    assert s[4..] == b;
  }

  /** Literal tokens consume exactly their characters from the front. */
  lemma {:induction false} MatchChars(a: string, rest: seq<Tok>, path: string)
    ensures MatchFrom(Chars(a) + rest, path) <==> StartsWith(path, a) && MatchFrom(rest, path[|a|..])
  {
    if a != [] {
      var t := Chars(a) + rest;
      assert t[0] == Char(a[0]);
      assert t[1..] == Chars(a[1..]) + rest;
      if path != [] {
        MatchChars(a[1..], rest, path[1..]);
        if |a| <= |path| {
          assert path[1..][|a| - 1..] == path[|a|..];
          assert path[..|a|] == [path[0]] + path[1..][..|a| - 1];
          assert a == [a[0]] + a[1..];
        }
      }
    } else {
      assert Chars(a) + rest == rest;
      assert path[|a|..] == path;
    }
  }

  /** A non-empty segment: one or more characters, none of them `/`. */
  predicate Segment(s: string) {
    |s| >= 1 && '/' !in s
  }

  /** The parameter search tries every run end from `k` on. */
  lemma {:induction false} AnyRunFinds(rest: seq<Tok>, path: string, k: nat)
    requires 1 <= k <= |path| + 1
    requires '/' !in path[..k - 1]
    ensures AnyRun(rest, path, k)
        <==> exists j :: k <= j <= |path| && '/' !in path[..j] && MatchFrom(rest, path[j..])
    decreases |path| - k + 1
  {
    if k <= |path| {
      if path[k - 1] != '/' {
        assert path[..k] == path[..k - 1] + [path[k - 1]];
        AnyRunFinds(rest, path, k + 1);
        if AnyRun(rest, path, k) && !MatchFrom(rest, path[k..]) {
          var j :| k + 1 <= j <= |path| && '/' !in path[..j] && MatchFrom(rest, path[j..]);
        }
      } else {
        forall j | k <= j <= |path|
          ensures '/' in path[..j]
        {
          assert path[..j][k - 1] == '/';
        }
      }
    }
  }

  /** A parameter matches one non-empty segment without `/`, and the rest
      of the pattern must match what follows it. */
  lemma ParamMatchesOneSegment(rest: seq<Tok>, path: string)
    ensures MatchFrom([Param] + rest, path)
        <==> exists j :: 1 <= j <= |path| && Segment(path[..j]) && MatchFrom(rest, path[j..])
  {
    assert ([Param] + rest)[1..] == rest;
    AnyRunFinds(rest, path, 1);
  }

  lemma StaticTail(b: string, q: string)
    ensures MatchFrom(Chars(b), q) <==> q == b
  {
    MatchChars(b, [], q);
    assert Chars(b) + [] == Chars(b);
  }

  /** A pattern without parameters matches, as a regex, only itself. */
  lemma StaticPatternMatchesItself(pattern: string, path: string)
    requires '[' !in pattern
    ensures MatchFrom(Compile(pattern), path) <==> path == pattern
  {
    CompileChars(pattern, "");
    assert pattern + "" == pattern;
    assert Chars(pattern) + [] == Chars(pattern);
    StaticTail(pattern, path);
  }

  lemma CompileDynamic(a: string, b: string)
    requires '[' !in a && '[' !in b
    ensures Compile(a + "[id]" + b) == Chars(a) + ([Param] + Chars(b))
  {
    CompileChars(a, "[id]" + b);
    assert a + "[id]" + b == a + ("[id]" + b);
    CompileParam(b);
    CompileChars(b, "");
    assert b + "" == b;
    assert Chars(b) + [] == Chars(b);
  }

  /** The paths `a`, then one segment, then `b`. */
  predicate Around(path: string, a: string, b: string) {
    && |path| > |a| + |b|
    && path[..|a|] == a
    && path[|path| - |b|..] == b
    && Segment(path[|a|..|path| - |b|])
  }

  /** A parameter followed by the literal `b` matches one segment then `b`. */
  lemma {:induction false} SegmentThen(b: string, q: string)
    ensures MatchFrom([Param] + Chars(b), q) <==> Around(q, "", b)
  {
    ParamMatchesOneSegment(Chars(b), q);
    if MatchFrom([Param] + Chars(b), q) {
      var j :| 1 <= j <= |q| && Segment(q[..j]) && MatchFrom(Chars(b), q[j..]);
      StaticTail(b, q[j..]);
      assert j == |q| - |b|;
      assert q[0..|q| - |b|] == q[..j];
    }
    if Around(q, "", b) {
      var j := |q| - |b|;
      assert q[0..j] == q[..j];
      StaticTail(b, q[j..]);
    }
  }

  /** A pattern `a[id]b` matches exactly the paths `a`, one segment, `b`. */
  lemma {:induction false} DynamicPatternMatches(a: string, b: string, path: string)
    requires '[' !in a && '[' !in b
    ensures MatchFrom(Compile(a + "[id]" + b), path) <==> Around(path, a, b)
  {
    CompileDynamic(a, b);
    MatchChars(a, [Param] + Chars(b), path);
    if |a| <= |path| {
      var q := path[|a|..];
      SegmentThen(b, q);
      assert |q| == |path| - |a|;
      if |q| > |b| {
        assert q[|q| - |b|..] == path[|path| - |b|..];
        assert q[0..|q| - |b|] == path[|a|..|path| - |b|];
      }
    }
  }

  /** The prefix before the first `/[name]` (the second `replace`); the
      whole pattern when it has none. */
  function Cut(pattern: string): (r: string)
    ensures |r| <= |pattern| && r == pattern[..|r|]
  {
    CutFrom(pattern, 0)
  }

  function CutFrom(pattern: string, i: nat): (r: string)
    requires i <= |pattern|
    ensures |r| <= |pattern| && r == pattern[..|r|]
    decreases |pattern| - i
  {
    if i + 1 >= |pattern| then pattern
    else if pattern[i] == '/' && ParamEnd(pattern[i + 1..]).Some? then pattern[..i]
    else CutFrom(pattern, i + 1)
  }

  /** The scan moves past positions whose next character is not `[`. */
  lemma {:induction false} CutFromSkips(pattern: string, i: nat, j: nat)
    requires i <= j < |pattern|
    requires '[' !in pattern[i + 1..j + 1]
    ensures CutFrom(pattern, i) == CutFrom(pattern, j)
    decreases j - i
  {
    if i < j {
      assert pattern[i + 1] == pattern[i + 1..j + 1][0];
      assert pattern[i + 2..j + 1] == pattern[i + 1..j + 1][1..];
      CutFromSkips(pattern, i + 1, j);
    }
  }

  /** A pattern without `[` is its own cut. */
  lemma NoParamNoCut(pattern: string)
    requires '[' !in pattern
    ensures Cut(pattern) == pattern
  {
    if |pattern| >= 1 {
      CutFromSkips(pattern, 0, |pattern| - 1);
    }
  }

  /** One pattern of `matchesRoute`: the anchored regex, or a plain prefix
      test against the cut pattern. */
  predicate MatchesPattern(path: string, pattern: string) {
    MatchFrom(Compile(pattern), path) || StartsWith(path, Cut(pattern))
  }

  /** `matchesRoute(pathname, patterns)` */
  predicate MatchesRoute(path: string, patterns: seq<string>) {
    exists i :: 0 <= i < |patterns| && MatchesPattern(path, patterns[i])
  }

  const PublicRoutes: seq<string> := ["/login", "/health", "/"]
  const ViewerRoutes: seq<string> := ["/dashboard"]
  const ManagerRoutes: seq<string> := [
    "/dashboard/inventory/new", "/dashboard/inventory/[id]/edit",
    "/dashboard/merchants", "/dashboard/reports"
  ]
  const AdminRoutes: seq<string> := [
    "/dashboard/users", "/dashboard/users/new", "/dashboard/users/[id]/edit"
  ]

  /** The middleware's `hasPermission` ranking: the role lower-cased, then
      `{ viewer: 1, manager: 2, admin: 3 }[role] || 0`. */
  function Level(role: string): (r: nat)
    ensures r <= 3
  {
    var l := Lower(role);
    if l == "viewer" then 1 else if l == "manager" then 2 else if l == "admin" then 3 else 0
  }

  /** Whether `role` reaches the level of `required`. */
  predicate Reaches(role: string, required: Role) {
    Level(role) >= Permissions.Rank(required)
  }

  datatype Decision =
    | Next
      /** To `/login`, with `?redirect=<pathname>` when a path is given. */
    | RedirectLogin(redirect: Option<string>)
    | RedirectDashboard

  /** Requests the middleware never inspects: framework assets, the API,
      the favicon and anything with a dot in it. */
  predicate Skipped(path: string) {
    StartsWith(path, "/_next") || StartsWith(path, "/api") || Includes(path, ".")
    || StartsWith(path, "/favicon")
  }

  /** A token or a role claim read as a JavaScript condition. */
  predicate Given(v: Option<string>) {
    v.Some? && v.value != ""
  }

  /** The checks that follow the public-route test, shared by the code as
      written and the corrected classifier below. */
  function Guard(path: string, token: Option<string>, role: Option<string>,
                 isAdminRoute: bool, isManagerRoute: bool): (r: Decision)
    ensures !Given(token) ==> r == RedirectLogin(Some(path))
    ensures Given(token) && !Given(role) ==> r == RedirectLogin(None)
    ensures Given(token) && Given(role) ==>
      r == (if isAdminRoute && !Reaches(role.value, Admin) then RedirectDashboard
            else if isManagerRoute && !Reaches(role.value, Manager) then RedirectDashboard
            else Next)
  {
    if !Given(token) then RedirectLogin(Some(path))
    else if !Given(role) then RedirectLogin(None)
    else
      var userRole := Lower(role.value);
      LowerIdempotent(role.value);
      if isAdminRoute && !Reaches(userRole, Admin) then RedirectDashboard
      else if isManagerRoute && !Reaches(userRole, Manager) then RedirectDashboard
      else Next
  }

  /** `middleware(request)` as written. */
  function Decide(path: string, token: Option<string>, role: Option<string>): (r: Decision)
    ensures Skipped(path) || MatchesRoute(path, PublicRoutes) ==> r == Next
    ensures !Skipped(path) && !MatchesRoute(path, PublicRoutes) ==>
      r == Guard(path, token, role, MatchesRoute(path, AdminRoutes), MatchesRoute(path, ManagerRoutes))
  {
    if Skipped(path) then Next
    else if MatchesRoute(path, PublicRoutes) then Next
    else Guard(path, token, role, MatchesRoute(path, AdminRoutes), MatchesRoute(path, ManagerRoutes))
  }

  /** Lower-casing twice is lower-casing once. */
  lemma LowerIdempotent(s: string)
    ensures Lower(Lower(s)) == Lower(s)
  {
  }

  /** The public pattern `"/"` cuts to itself, so every path that starts
      with `/` is public. */
  lemma {:induction false} EveryPathIsPublic(path: string)
    requires path != [] && path[0] == '/'
    ensures MatchesRoute(path, PublicRoutes)
    ensures Decide(path, None, None) == Next
  {
    assert Cut("/") == "/";
    assert MatchesPattern(path, PublicRoutes[2]);
  }

  /** As written, a request without any token still reaches the user
      administration pages. */
  lemma AnonymousReachesUserAdmin()
    ensures Decide("/dashboard/users", None, None) == Next
  {
    EveryPathIsPublic("/dashboard/users");
  }

  /** The cut of the inventory edit pattern is the inventory list path, so
      the list page is classified as a manager route. */
  lemma InventoryEditCut()
    ensures Cut("/dashboard/inventory/[id]/edit") == "/dashboard/inventory"
  {
    var a, rest := "/dashboard/inventory", "[id]/edit";
    assert rest[0] == '[' && rest[1] == 'i' && rest[2] == 'd' && rest[3] == ']';
    assert CloseFrom(rest, 3) == Some(4);
    assert a + "/" + rest == "/dashboard/inventory/[id]/edit";
    CutBeforeParam(a, rest);
  }

  /** The cut stops at the first `/` followed by a parameter. */
  lemma CutBeforeParam(a: string, rest: string)
    requires '[' !in a && ParamEnd(rest).Some?
    ensures Cut(a + "/" + rest) == a
  {
    var p := a + "/" + rest;
    forall k | 1 <= k < |a| + 1 ensures p[k] != '[' {
      if k < |a| {
        assert p[k] == a[k];
      }
    }
    assert '[' !in p[1..|a| + 1];
    CutFromSkips(p, 0, |a|);
    assert p[|a| + 1..] == rest;
    assert p[..|a|] == a;
  }

  lemma InventoryListIsManagerRoute()
    ensures MatchesRoute("/dashboard/inventory", ManagerRoutes)
  {
    InventoryEditCut();
    assert MatchesPattern("/dashboard/inventory", ManagerRoutes[1]);
  }

  /** The prefix test is on characters, so a path merely beginning with a
      manager route is a manager route. */
  lemma MerchantsPrefixMatches()
    ensures MatchesRoute("/dashboard/merchantsX", ManagerRoutes)
  {
    var path, pattern := "/dashboard/merchantsX", "/dashboard/merchants";
    assert path == pattern + "X";
    PrefixMatchesStaticPattern(path, pattern);
    assert MatchesPattern(path, ManagerRoutes[2]);
  }

  /** A pattern without parameters matches every path it is a prefix of. */
  lemma PrefixMatchesStaticPattern(path: string, pattern: string)
    requires '[' !in pattern && StartsWith(path, pattern)
    ensures MatchesPattern(path, pattern)
  {
    NoParamNoCut(pattern);
  }

  /** The middleware ranks every role name as the permission table does,
      and ignores letter case. */
  lemma LevelAgreesWithPermissions(u: Role)
    ensures Level(RoleName(u)) == Permissions.Rank(u)
  {
  }

  lemma LevelIgnoresCase(s: string)
    ensures Level(Lower(s)) == Level(s)
  {
    LowerIdempotent(s);
  }

  /** An unknown role, however spelled, passes neither the manager nor the
      admin test. */
  lemma UnknownRoleFailsBothTests(role: string)
    requires Level(role) == 0
    ensures !Reaches(role, Manager) && !Reaches(role, Admin)
  {
  }

  /** A path with no dot in it is never skipped for containing one. */
  lemma {:induction false} NoDotNotIncluded(s: string)
    requires '.' !in s
    ensures !Includes(s, ".")
  {
    if s != [] {
      assert s == [s[0]] + s[1..];
      NoDotNotIncluded(s[1..]);
    }
  }

  /** The path itself or anything below it, segment-wise; the root
      pattern `/` stands only for itself. */
  predicate Under(path: string, prefix: string) {
    path == prefix || (prefix != "/" && StartsWith(path, prefix + "/"))
  }

  /** The corrected pattern test: the anchored regex, and for a pattern
      without parameters also the paths below it. */
  predicate MatchesPatternIntended(path: string, pattern: string) {
    MatchFrom(Compile(pattern), path) || ('[' !in pattern && Under(path, pattern))
  }

  predicate MatchesRouteIntended(path: string, patterns: seq<string>) {
    exists i :: 0 <= i < |patterns| && MatchesPatternIntended(path, patterns[i])
  }

  /** `middleware(request)` with the corrected classifier. */
  function DecideIntended(path: string, token: Option<string>, role: Option<string>): (r: Decision)
    ensures Skipped(path) ==> r == Next
    ensures !Skipped(path) && MatchesRouteIntended(path, PublicRoutes) ==> r == Next
    ensures !Skipped(path) && !MatchesRouteIntended(path, PublicRoutes) ==>
      r == Guard(path, token, role, MatchesRouteIntended(path, AdminRoutes), MatchesRouteIntended(path, ManagerRoutes))
  {
    if Skipped(path) then Next
    else if MatchesRouteIntended(path, PublicRoutes) then Next
    else Guard(path, token, role, MatchesRouteIntended(path, AdminRoutes), MatchesRouteIntended(path, ManagerRoutes))
  }

  /** A pattern without parameters, under the corrected test. */
  lemma StaticIntended(path: string, pattern: string)
    requires '[' !in pattern
    ensures MatchesPatternIntended(path, pattern) <==> Under(path, pattern)
  {
    StaticPatternMatchesItself(pattern, path);
  }

  /** The corrected public test admits `/login`, `/health`, what lies
      below them, and the root itself. */
  lemma PublicIntended(path: string)
    ensures MatchesRouteIntended(path, PublicRoutes)
        <==> Under(path, "/login") || Under(path, "/health") || path == "/"
  {
    PublicPatterns(path, PublicRoutes);
  }

  lemma PublicPatterns(path: string, ps: seq<string>)
    requires ps == PublicRoutes
    ensures MatchesRouteIntended(path, ps)
        <==> Under(path, "/login") || Under(path, "/health") || path == "/"
  {
    StaticIntended(path, ps[0]);
    StaticIntended(path, ps[1]);
    StaticIntended(path, ps[2]);
    RouteOfThree(path, ps);
  }

  /** A route list is matched when one of its patterns is. */
  lemma RouteByPattern(path: string, patterns: seq<string>, i: nat)
    requires i < |patterns| && MatchesPatternIntended(path, patterns[i])
    ensures MatchesRouteIntended(path, patterns)
  {
  }

  /** A three-pattern list matches when one of its three patterns does. */
  lemma RouteOfThree(path: string, ps: seq<string>)
    requires |ps| == 3
    ensures MatchesRouteIntended(path, ps)
        <==> MatchesPatternIntended(path, ps[0]) || MatchesPatternIntended(path, ps[1])
             || MatchesPatternIntended(path, ps[2])
  {
    if MatchesPatternIntended(path, ps[0]) {
      RouteByPattern(path, ps, 0);
    } else if MatchesPatternIntended(path, ps[1]) {
      RouteByPattern(path, ps, 1);
    } else if MatchesPatternIntended(path, ps[2]) {
      RouteByPattern(path, ps, 2);
    }
  }

  /** A four-pattern list matches when one of its four patterns does. */
  lemma RouteOfFour(path: string, ps: seq<string>)
    requires |ps| == 4
    ensures MatchesRouteIntended(path, ps)
        <==> MatchesPatternIntended(path, ps[0]) || MatchesPatternIntended(path, ps[1])
             || MatchesPatternIntended(path, ps[2]) || MatchesPatternIntended(path, ps[3])
  {
    if MatchesPatternIntended(path, ps[0]) {
      RouteByPattern(path, ps, 0);
    } else if MatchesPatternIntended(path, ps[1]) {
      RouteByPattern(path, ps, 1);
    } else if MatchesPatternIntended(path, ps[2]) {
      RouteByPattern(path, ps, 2);
    } else if MatchesPatternIntended(path, ps[3]) {
      RouteByPattern(path, ps, 3);
    }
  }

  /** A longer prefix implies the shorter one. */
  lemma StartsWithShorter(s: string, a: string, b: string)
    requires StartsWith(s, a + b)
    ensures StartsWith(s, a)
  {
    assert s[..|a|] == (a + b)[..|a|];
  }

  /** A `[id]` pattern under the corrected test is its regex. */
  lemma DynamicIntended(path: string, p: string, a: string, b: string)
    requires '[' !in a && '[' !in b && p == a + "[id]" + b
    ensures MatchesPatternIntended(path, p) <==> Around(path, a, b)
  {
    DynamicPatternMatches(a, b, path);
  }

  lemma UsersNewIsBelowUsers(path: string)
    requires Under(path, "/dashboard/users/new")
    ensures Under(path, "/dashboard/users")
  {
    var a, b := "/dashboard/users", "/dashboard/users/new";
    assert b + "/" == (a + "/") + "new/";
    assert b == (a + "/") + "new";
    if path != b {
      StartsWithShorter(path, a + "/", "new/");
    } else {
      StartsWithShorter(path, a + "/", "new");
    }
  }

  /** The patterns of a list, one at a time. The list is a parameter so
      that its patterns are reasoned about symbolically, not evaluated. */
  lemma UsersPattern(path: string, ps: seq<string>)
    requires ps == AdminRoutes
    ensures MatchesPatternIntended(path, ps[0]) <==> Under(path, "/dashboard/users")
  {
    StaticIntended(path, ps[0]);
  }

  lemma UsersNewPattern(path: string, ps: seq<string>)
    requires ps == AdminRoutes
    ensures MatchesPatternIntended(path, ps[1]) ==> Under(path, "/dashboard/users")
  {
    StaticIntended(path, ps[1]);
    if MatchesPatternIntended(path, ps[1]) {
      UsersNewIsBelowUsers(path);
    }
  }

  lemma UsersEditPattern(path: string, ps: seq<string>)
    requires ps == AdminRoutes
    ensures MatchesPatternIntended(path, ps[2]) <==> Around(path, "/dashboard/users/", "/edit")
  {
    DynamicIntended(path, ps[2], "/dashboard/users/", "/edit");
  }

  /** The corrected admin test: the user pages and their edit pages. */
  lemma AdminIntended(path: string, ps: seq<string>)
    requires ps == AdminRoutes
    ensures MatchesRouteIntended(path, ps)
        <==> Under(path, "/dashboard/users") || Around(path, "/dashboard/users/", "/edit")
  {
    UsersPattern(path, ps);
    UsersNewPattern(path, ps);
    UsersEditPattern(path, ps);
    RouteOfThree(path, ps);
  }

  lemma InventoryNewPattern(path: string, ps: seq<string>)
    requires ps == ManagerRoutes
    ensures MatchesPatternIntended(path, ps[0]) <==> Under(path, "/dashboard/inventory/new")
  {
    StaticIntended(path, ps[0]);
  }

  lemma InventoryEditPattern(path: string, ps: seq<string>)
    requires ps == ManagerRoutes
    ensures MatchesPatternIntended(path, ps[1]) <==> Around(path, "/dashboard/inventory/", "/edit")
  {
    DynamicIntended(path, ps[1], "/dashboard/inventory/", "/edit");
  }

  lemma MerchantsPattern(path: string, ps: seq<string>)
    requires ps == ManagerRoutes
    ensures MatchesPatternIntended(path, ps[2]) <==> Under(path, "/dashboard/merchants")
  {
    StaticIntended(path, ps[2]);
  }

  lemma ReportsPattern(path: string, ps: seq<string>)
    requires ps == ManagerRoutes
    ensures MatchesPatternIntended(path, ps[3]) <==> Under(path, "/dashboard/reports")
  {
    StaticIntended(path, ps[3]);
  }

  /** The corrected manager test: creating and editing inventory, and the
      merchant and report sections. */
  lemma ManagerIntended(path: string, ps: seq<string>)
    requires ps == ManagerRoutes
    ensures MatchesRouteIntended(path, ps)
        <==> || Under(path, "/dashboard/inventory/new")
             || Around(path, "/dashboard/inventory/", "/edit")
             || Under(path, "/dashboard/merchants")
             || Under(path, "/dashboard/reports")
  {
    InventoryNewPattern(path, ps);
    InventoryEditPattern(path, ps);
    MerchantsPattern(path, ps);
    ReportsPattern(path, ps);
    RouteOfFour(path, ps);
  }

  /** Dashboard pages are neither skipped nor public under the corrected
      classifier. */
  lemma DashboardPathGuarded(path: string)
    requires StartsWith(path, "/dashboard") && '.' !in path
    ensures !Skipped(path) && !MatchesRouteIntended(path, PublicRoutes)
  {
    assert path[1] == "/dashboard"[1];
    SecondCharGuarded(path);
  }

  /** A path whose second character is `d` and that has no dot is neither
      skipped nor public. */
  lemma SecondCharGuarded(path: string)
    requires |path| >= 2 && path[1] == 'd' && '.' !in path
    ensures !Skipped(path) && !MatchesRouteIntended(path, PublicRoutes)
  {
    NoDotNotIncluded(path);
    PublicIntended(path);
    NotBelow(path, "/login", 1);
    NotBelow(path, "/health", 1);
    NotPrefix(path, "/_next", 1);
    NotPrefix(path, "/api", 1);
    NotPrefix(path, "/favicon", 1);
  }

  /** A differing character rules a plain prefix out. */
  lemma NotPrefix(path: string, prefix: string, i: nat)
    requires i < |path| && i < |prefix| && path[i] != prefix[i]
    ensures !StartsWith(path, prefix)
  {
  }

  /** The corrected decision once a dashboard page is known to be guarded:
      the role must reach each level the page is classified under. */
  lemma GuardedDecision(path: string, token: Option<string>, u: Role)
    requires StartsWith(path, "/dashboard") && '.' !in path && Given(token)
    ensures DecideIntended(path, token, Some(RoleName(u))) == Next
        <==> && (MatchesRouteIntended(path, AdminRoutes) ==> u == Admin)
             && (MatchesRouteIntended(path, ManagerRoutes) ==> u != Viewer)
  {
    DashboardPathGuarded(path);
    LevelAgreesWithPermissions(u);
  }

  /** The path lies below `prefix`. */
  lemma BelowBy(path: string, prefix: string, rest: string)
    requires prefix != "/" && path == prefix + "/" + rest
    ensures Under(path, prefix)
  {
    assert path[..|prefix| + 1] == prefix + "/";
  }

  /** A differing character rules a prefix out. */
  lemma NotBelow(path: string, prefix: string, i: nat)
    requires i < |path| && i < |prefix| && path[i] != prefix[i]
    ensures !Under(path, prefix)
  {
    assert (prefix + "/")[i] == prefix[i];
  }

  lemma AroundBy(path: string, a: string, seg: string, b: string)
    requires Segment(seg) && path == a + seg + b
    ensures Around(path, a, b)
  {
    assert path[..|a|] == a;
    assert path[|path| - |b|..] == b;
    assert path[|a|..|path| - |b|] == seg;
  }

  lemma NotAround(path: string, a: string, b: string, i: nat)
    requires i < |path| && i < |a| && path[i] != a[i]
    ensures !Around(path, a, b)
  {
  }

  /** Where each page of the permission table falls among the corrected
      classifier's prefixes and segment patterns. */
  lemma AdminShapeDashboard(path: string)
    requires path == "/dashboard"
    ensures !Under(path, "/dashboard/users")
    ensures !Around(path, "/dashboard/users/", "/edit")
  {

  }

  lemma ManagerShapeDashboard(path: string)
    requires path == "/dashboard"
    ensures !Under(path, "/dashboard/inventory/new")
    ensures !Around(path, "/dashboard/inventory/", "/edit")
    ensures !Under(path, "/dashboard/merchants")
    ensures !Under(path, "/dashboard/reports")
  {

  }

  lemma AdminShapeInventory(path: string)
    requires path == "/dashboard/inventory"
    ensures !Under(path, "/dashboard/users")
    ensures !Around(path, "/dashboard/users/", "/edit")
  {
    NotBelow(path, "/dashboard/users", 11);
  }

  lemma ManagerShapeInventory(path: string)
    requires path == "/dashboard/inventory"
    ensures !Under(path, "/dashboard/inventory/new")
    ensures !Around(path, "/dashboard/inventory/", "/edit")
    ensures !Under(path, "/dashboard/merchants")
    ensures !Under(path, "/dashboard/reports")
  {
    NotBelow(path, "/dashboard/merchants", 11);
    NotBelow(path, "/dashboard/reports", 11);
  }

  lemma AdminShapeInventoryNew(path: string)
    requires path == "/dashboard/inventory/new"
    ensures !Under(path, "/dashboard/users")
    ensures !Around(path, "/dashboard/users/", "/edit")
  {
    NotBelow(path, "/dashboard/users", 11);
    NotAround(path, "/dashboard/users/", "/edit", 11);
  }

  lemma ManagerShapeInventoryNew(path: string)
    requires path == "/dashboard/inventory/new"
    ensures Under(path, "/dashboard/inventory/new")
    ensures !Around(path, "/dashboard/inventory/", "/edit")
    ensures !Under(path, "/dashboard/merchants")
    ensures !Under(path, "/dashboard/reports")
  {
    NotBelow(path, "/dashboard/merchants", 11);
    NotBelow(path, "/dashboard/reports", 11);
  }

  lemma AdminShapeInventoryEdit(path: string)
    requires path == "/dashboard/inventory/[id]/edit"
    ensures !Under(path, "/dashboard/users")
    ensures !Around(path, "/dashboard/users/", "/edit")
  {
    NotBelow(path, "/dashboard/users", 11);
    NotAround(path, "/dashboard/users/", "/edit", 11);
  }

  lemma ManagerShapeInventoryEdit(path: string)
    requires path == "/dashboard/inventory/[id]/edit"
    ensures !Under(path, "/dashboard/inventory/new")
    ensures Around(path, "/dashboard/inventory/", "/edit")
    ensures !Under(path, "/dashboard/merchants")
    ensures !Under(path, "/dashboard/reports")
  {
    NotBelow(path, "/dashboard/inventory/new", 21);
    AroundBy(path, "/dashboard/inventory/", "[id]", "/edit");
    NotBelow(path, "/dashboard/merchants", 11);
    NotBelow(path, "/dashboard/reports", 11);
  }

  lemma AdminShapeUsers(path: string)
    requires path == "/dashboard/users"
    ensures Under(path, "/dashboard/users")
    ensures !Around(path, "/dashboard/users/", "/edit")
  {

  }

  lemma ManagerShapeUsers(path: string)
    requires path == "/dashboard/users"
    ensures !Under(path, "/dashboard/inventory/new")
    ensures !Around(path, "/dashboard/inventory/", "/edit")
    ensures !Under(path, "/dashboard/merchants")
    ensures !Under(path, "/dashboard/reports")
  {

  }

  lemma AdminShapeUsersNew(path: string)
    requires path == "/dashboard/users/new"
    ensures Under(path, "/dashboard/users")
    ensures !Around(path, "/dashboard/users/", "/edit")
  {
    BelowBy(path, "/dashboard/users", "new");
  }

  lemma ManagerShapeUsersNew(path: string)
    requires path == "/dashboard/users/new"
    ensures !Under(path, "/dashboard/inventory/new")
    ensures !Around(path, "/dashboard/inventory/", "/edit")
    ensures !Under(path, "/dashboard/merchants")
    ensures !Under(path, "/dashboard/reports")
  {
    NotBelow(path, "/dashboard/merchants", 11);
    NotBelow(path, "/dashboard/reports", 11);
  }

  lemma AdminShapeUsersEdit(path: string)
    requires path == "/dashboard/users/[id]/edit"
    ensures Under(path, "/dashboard/users")
    ensures Around(path, "/dashboard/users/", "/edit")
  {
    BelowBy(path, "/dashboard/users", "[id]/edit");
    AroundBy(path, "/dashboard/users/", "[id]", "/edit");
  }

  lemma ManagerShapeUsersEdit(path: string)
    requires path == "/dashboard/users/[id]/edit"
    ensures !Under(path, "/dashboard/inventory/new")
    ensures !Around(path, "/dashboard/inventory/", "/edit")
    ensures !Under(path, "/dashboard/merchants")
    ensures !Under(path, "/dashboard/reports")
  {
    NotBelow(path, "/dashboard/inventory/new", 11);
    NotBelow(path, "/dashboard/merchants", 11);
    NotBelow(path, "/dashboard/reports", 11);
  }

  lemma AdminShapeMerchants(path: string)
    requires path == "/dashboard/merchants"
    ensures !Under(path, "/dashboard/users")
    ensures !Around(path, "/dashboard/users/", "/edit")
  {
    NotBelow(path, "/dashboard/users", 11);
  }

  lemma ManagerShapeMerchants(path: string)
    requires path == "/dashboard/merchants"
    ensures !Under(path, "/dashboard/inventory/new")
    ensures !Around(path, "/dashboard/inventory/", "/edit")
    ensures Under(path, "/dashboard/merchants")
    ensures !Under(path, "/dashboard/reports")
  {
    NotBelow(path, "/dashboard/reports", 11);
  }

  lemma AdminShapeMerchantsNew(path: string)
    requires path == "/dashboard/merchants/new"
    ensures !Under(path, "/dashboard/users")
    ensures !Around(path, "/dashboard/users/", "/edit")
  {
    NotBelow(path, "/dashboard/users", 11);
    NotAround(path, "/dashboard/users/", "/edit", 11);
  }

  lemma ManagerShapeMerchantsNew(path: string)
    requires path == "/dashboard/merchants/new"
    ensures !Under(path, "/dashboard/inventory/new")
    ensures !Around(path, "/dashboard/inventory/", "/edit")
    ensures Under(path, "/dashboard/merchants")
    ensures !Under(path, "/dashboard/reports")
  {
    NotBelow(path, "/dashboard/inventory/new", 11);
    BelowBy(path, "/dashboard/merchants", "new");
    NotBelow(path, "/dashboard/reports", 11);
  }

  lemma AdminShapeReports(path: string)
    requires path == "/dashboard/reports"
    ensures !Under(path, "/dashboard/users")
    ensures !Around(path, "/dashboard/users/", "/edit")
  {
    NotBelow(path, "/dashboard/users", 11);
  }

  lemma ManagerShapeReports(path: string)
    requires path == "/dashboard/reports"
    ensures !Under(path, "/dashboard/inventory/new")
    ensures !Around(path, "/dashboard/inventory/", "/edit")
    ensures !Under(path, "/dashboard/merchants")
    ensures Under(path, "/dashboard/reports")
  {

  }

  lemma AdminShapeProfile(path: string)
    requires path == "/dashboard/profile"
    ensures !Under(path, "/dashboard/users")
    ensures !Around(path, "/dashboard/users/", "/edit")
  {
    NotBelow(path, "/dashboard/users", 11);
  }

  lemma ManagerShapeProfile(path: string)
    requires path == "/dashboard/profile"
    ensures !Under(path, "/dashboard/inventory/new")
    ensures !Around(path, "/dashboard/inventory/", "/edit")
    ensures !Under(path, "/dashboard/merchants")
    ensures !Under(path, "/dashboard/reports")
  {
    NotBelow(path, "/dashboard/reports", 11);
  }

  lemma ClassifyDashboard(path: string)
    requires path == "/dashboard"
    ensures !MatchesRouteIntended(path, AdminRoutes)
    ensures !MatchesRouteIntended(path, ManagerRoutes)
  {
    AdminIntended(path, AdminRoutes);
    AdminShapeDashboard(path);
    ManagerIntended(path, ManagerRoutes);
    ManagerShapeDashboard(path);
  }

  lemma AccessDashboard(path: string, u: Role)
    requires path == "/dashboard"
    ensures Permissions.PermissionChecker(RoleName(u)).CanAccessRoute(path)
  {
  }

  lemma AgreesAtDashboard(path: string, token: Option<string>, u: Role)
    requires path == "/dashboard" && Given(token)
    ensures DecideIntended(path, token, Some(RoleName(u))) == Next
        <==> Permissions.PermissionChecker(RoleName(u)).CanAccessRoute(path)
  {
    GuardedDecision(path, token, u);
    ClassifyDashboard(path);
    AccessDashboard(path, u);
  }

  lemma ClassifyInventory(path: string)
    requires path == "/dashboard/inventory"
    ensures !MatchesRouteIntended(path, AdminRoutes)
    ensures !MatchesRouteIntended(path, ManagerRoutes)
  {
    AdminIntended(path, AdminRoutes);
    AdminShapeInventory(path);
    ManagerIntended(path, ManagerRoutes);
    ManagerShapeInventory(path);
  }

  lemma AccessInventory(path: string, u: Role)
    requires path == "/dashboard/inventory"
    ensures Permissions.PermissionChecker(RoleName(u)).CanAccessRoute(path)
  {
  }

  lemma AgreesAtInventory(path: string, token: Option<string>, u: Role)
    requires path == "/dashboard/inventory" && Given(token)
    ensures DecideIntended(path, token, Some(RoleName(u))) == Next
        <==> Permissions.PermissionChecker(RoleName(u)).CanAccessRoute(path)
  {
    GuardedDecision(path, token, u);
    ClassifyInventory(path);
    AccessInventory(path, u);
  }

  lemma ClassifyInventoryNew(path: string)
    requires path == "/dashboard/inventory/new"
    ensures !MatchesRouteIntended(path, AdminRoutes)
    ensures MatchesRouteIntended(path, ManagerRoutes)
  {
    AdminIntended(path, AdminRoutes);
    AdminShapeInventoryNew(path);
    ManagerIntended(path, ManagerRoutes);
    ManagerShapeInventoryNew(path);
  }

  lemma AccessInventoryNew(path: string, u: Role)
    requires path == "/dashboard/inventory/new"
    ensures Permissions.PermissionChecker(RoleName(u)).CanAccessRoute(path) <==> u != Viewer
  {
  }

  lemma AgreesAtInventoryNew(path: string, token: Option<string>, u: Role)
    requires path == "/dashboard/inventory/new" && Given(token)
    ensures DecideIntended(path, token, Some(RoleName(u))) == Next
        <==> Permissions.PermissionChecker(RoleName(u)).CanAccessRoute(path)
  {
    GuardedDecision(path, token, u);
    ClassifyInventoryNew(path);
    AccessInventoryNew(path, u);
  }

  lemma ClassifyInventoryEdit(path: string)
    requires path == "/dashboard/inventory/[id]/edit"
    ensures !MatchesRouteIntended(path, AdminRoutes)
    ensures MatchesRouteIntended(path, ManagerRoutes)
  {
    AdminIntended(path, AdminRoutes);
    AdminShapeInventoryEdit(path);
    ManagerIntended(path, ManagerRoutes);
    ManagerShapeInventoryEdit(path);
  }

  lemma AccessInventoryEdit(path: string, u: Role)
    requires path == "/dashboard/inventory/[id]/edit"
    ensures Permissions.PermissionChecker(RoleName(u)).CanAccessRoute(path) <==> u != Viewer
  {
  }

  lemma AgreesAtInventoryEdit(path: string, token: Option<string>, u: Role)
    requires path == "/dashboard/inventory/[id]/edit" && Given(token)
    ensures DecideIntended(path, token, Some(RoleName(u))) == Next
        <==> Permissions.PermissionChecker(RoleName(u)).CanAccessRoute(path)
  {
    GuardedDecision(path, token, u);
    ClassifyInventoryEdit(path);
    AccessInventoryEdit(path, u);
  }

  lemma ClassifyUsers(path: string)
    requires path == "/dashboard/users"
    ensures MatchesRouteIntended(path, AdminRoutes)
    ensures !MatchesRouteIntended(path, ManagerRoutes)
  {
    AdminIntended(path, AdminRoutes);
    AdminShapeUsers(path);
    ManagerIntended(path, ManagerRoutes);
    ManagerShapeUsers(path);
  }

  lemma AccessUsers(path: string, u: Role)
    requires path == "/dashboard/users"
    ensures Permissions.PermissionChecker(RoleName(u)).CanAccessRoute(path) <==> u == Admin
  {
  }

  lemma AgreesAtUsers(path: string, token: Option<string>, u: Role)
    requires path == "/dashboard/users" && Given(token)
    ensures DecideIntended(path, token, Some(RoleName(u))) == Next
        <==> Permissions.PermissionChecker(RoleName(u)).CanAccessRoute(path)
  {
    GuardedDecision(path, token, u);
    ClassifyUsers(path);
    AccessUsers(path, u);
  }

  lemma ClassifyUsersNew(path: string)
    requires path == "/dashboard/users/new"
    ensures MatchesRouteIntended(path, AdminRoutes)
    ensures !MatchesRouteIntended(path, ManagerRoutes)
  {
    AdminIntended(path, AdminRoutes);
    AdminShapeUsersNew(path);
    ManagerIntended(path, ManagerRoutes);
    ManagerShapeUsersNew(path);
  }

  lemma AccessUsersNew(path: string, u: Role)
    requires path == "/dashboard/users/new"
    ensures Permissions.PermissionChecker(RoleName(u)).CanAccessRoute(path) <==> u == Admin
  {
  }

  lemma AgreesAtUsersNew(path: string, token: Option<string>, u: Role)
    requires path == "/dashboard/users/new" && Given(token)
    ensures DecideIntended(path, token, Some(RoleName(u))) == Next
        <==> Permissions.PermissionChecker(RoleName(u)).CanAccessRoute(path)
  {
    GuardedDecision(path, token, u);
    ClassifyUsersNew(path);
    AccessUsersNew(path, u);
  }

  lemma ClassifyUsersEdit(path: string)
    requires path == "/dashboard/users/[id]/edit"
    ensures MatchesRouteIntended(path, AdminRoutes)
    ensures !MatchesRouteIntended(path, ManagerRoutes)
  {
    AdminIntended(path, AdminRoutes);
    AdminShapeUsersEdit(path);
    ManagerIntended(path, ManagerRoutes);
    ManagerShapeUsersEdit(path);
  }

  lemma AccessUsersEdit(path: string, u: Role)
    requires path == "/dashboard/users/[id]/edit"
    ensures Permissions.PermissionChecker(RoleName(u)).CanAccessRoute(path) <==> u == Admin
  {
  }

  lemma AgreesAtUsersEdit(path: string, token: Option<string>, u: Role)
    requires path == "/dashboard/users/[id]/edit" && Given(token)
    ensures DecideIntended(path, token, Some(RoleName(u))) == Next
        <==> Permissions.PermissionChecker(RoleName(u)).CanAccessRoute(path)
  {
    GuardedDecision(path, token, u);
    ClassifyUsersEdit(path);
    AccessUsersEdit(path, u);
  }

  lemma ClassifyMerchants(path: string)
    requires path == "/dashboard/merchants"
    ensures !MatchesRouteIntended(path, AdminRoutes)
    ensures MatchesRouteIntended(path, ManagerRoutes)
  {
    AdminIntended(path, AdminRoutes);
    AdminShapeMerchants(path);
    ManagerIntended(path, ManagerRoutes);
    ManagerShapeMerchants(path);
  }

  lemma AccessMerchants(path: string, u: Role)
    requires path == "/dashboard/merchants"
    ensures Permissions.PermissionChecker(RoleName(u)).CanAccessRoute(path) <==> u != Viewer
  {
  }

  lemma AgreesAtMerchants(path: string, token: Option<string>, u: Role)
    requires path == "/dashboard/merchants" && Given(token)
    ensures DecideIntended(path, token, Some(RoleName(u))) == Next
        <==> Permissions.PermissionChecker(RoleName(u)).CanAccessRoute(path)
  {
    GuardedDecision(path, token, u);
    ClassifyMerchants(path);
    AccessMerchants(path, u);
  }

  lemma ClassifyMerchantsNew(path: string)
    requires path == "/dashboard/merchants/new"
    ensures !MatchesRouteIntended(path, AdminRoutes)
    ensures MatchesRouteIntended(path, ManagerRoutes)
  {
    AdminIntended(path, AdminRoutes);
    AdminShapeMerchantsNew(path);
    ManagerIntended(path, ManagerRoutes);
    ManagerShapeMerchantsNew(path);
  }

  lemma AccessMerchantsNew(path: string, u: Role)
    requires path == "/dashboard/merchants/new"
    ensures Permissions.PermissionChecker(RoleName(u)).CanAccessRoute(path) <==> u != Viewer
  {
  }

  lemma AgreesAtMerchantsNew(path: string, token: Option<string>, u: Role)
    requires path == "/dashboard/merchants/new" && Given(token)
    ensures DecideIntended(path, token, Some(RoleName(u))) == Next
        <==> Permissions.PermissionChecker(RoleName(u)).CanAccessRoute(path)
  {
    GuardedDecision(path, token, u);
    ClassifyMerchantsNew(path);
    AccessMerchantsNew(path, u);
  }

  lemma ClassifyReports(path: string)
    requires path == "/dashboard/reports"
    ensures !MatchesRouteIntended(path, AdminRoutes)
    ensures MatchesRouteIntended(path, ManagerRoutes)
  {
    AdminIntended(path, AdminRoutes);
    AdminShapeReports(path);
    ManagerIntended(path, ManagerRoutes);
    ManagerShapeReports(path);
  }

  lemma AccessReports(path: string, u: Role)
    requires path == "/dashboard/reports"
    ensures Permissions.PermissionChecker(RoleName(u)).CanAccessRoute(path) <==> u != Viewer
  {
  }

  lemma AgreesAtReports(path: string, token: Option<string>, u: Role)
    requires path == "/dashboard/reports" && Given(token)
    ensures DecideIntended(path, token, Some(RoleName(u))) == Next
        <==> Permissions.PermissionChecker(RoleName(u)).CanAccessRoute(path)
  {
    GuardedDecision(path, token, u);
    ClassifyReports(path);
    AccessReports(path, u);
  }

  lemma ClassifyProfile(path: string)
    requires path == "/dashboard/profile"
    ensures !MatchesRouteIntended(path, AdminRoutes)
    ensures !MatchesRouteIntended(path, ManagerRoutes)
  {
    AdminIntended(path, AdminRoutes);
    AdminShapeProfile(path);
    ManagerIntended(path, ManagerRoutes);
    ManagerShapeProfile(path);
  }

  lemma AccessProfile(path: string, u: Role)
    requires path == "/dashboard/profile"
    ensures Permissions.PermissionChecker(RoleName(u)).CanAccessRoute(path)
  {
  }

  lemma AgreesAtProfile(path: string, token: Option<string>, u: Role)
    requires path == "/dashboard/profile" && Given(token)
    ensures DecideIntended(path, token, Some(RoleName(u))) == Next
        <==> Permissions.PermissionChecker(RoleName(u)).CanAccessRoute(path)
  {
    GuardedDecision(path, token, u);
    ClassifyProfile(path);
    AccessProfile(path, u);
  }

  /** With a token and a role, the corrected middleware lets a request for
      each page of the permission table through exactly when the permission
      checker built from that role grants the page. */
  lemma IntendedAgreesWithChecker(path: string, token: Option<string>, u: Role)
    requires path in Permissions.RouteKeys && Given(token)
    ensures DecideIntended(path, token, Some(RoleName(u))) == Next
        <==> Permissions.PermissionChecker(RoleName(u)).CanAccessRoute(path)
  {
    var i :| 0 <= i < |Permissions.RouteKeys| && Permissions.RouteKeys[i] == path;
    if i == 0 {
      AgreesAtDashboard(path, token, u);
    } else if i == 1 {
      AgreesAtInventory(path, token, u);
    } else if i == 2 {
      AgreesAtInventoryNew(path, token, u);
    } else if i == 3 {
      AgreesAtInventoryEdit(path, token, u);
    } else if i == 4 {
      AgreesAtUsers(path, token, u);
    } else if i == 5 {
      AgreesAtUsersNew(path, token, u);
    } else if i == 6 {
      AgreesAtUsersEdit(path, token, u);
    } else if i == 7 {
      AgreesAtMerchants(path, token, u);
    } else if i == 8 {
      AgreesAtMerchantsNew(path, token, u);
    } else if i == 9 {
      AgreesAtReports(path, token, u);
    } else if i == 10 {
      AgreesAtProfile(path, token, u);
    }
  }
}
