/**
 * The route gate of middleware.jsx: which requests pass and which are sent
 * to the sign-in page, as a function of the path and of what the
 * authentication lookup gave; and the `/dashboard/:path*` matcher that
 * decides on which paths the gate runs at all.
 */
module Middleware {
  import opened Strings

  /** What `stackServerApp.getUser()` gave: a user, none, or an exception. */
  datatype AuthOutcome = SignedIn | NoUser | AuthError

  /** `NextResponse.next()`, or `NextResponse.redirect` to a path of the same site. */
  datatype Decision = Next | Redirect(target: string)

  /** Where unauthenticated requests are sent. */
  const SignIn: string := "/handler/sign-in"

  /** Paths under `/handler` belong to the authentication pages. */
  predicate IsHandlerPath(path: string) {
    StartsWith(path, "/handler")
  }

  /** Static files, API routes and the icon. */
  predicate IsPublicAsset(path: string) {
    StartsWith(path, "/_next") || StartsWith(path, "/api") || path == "/favicon.ico"
  }

  /** Whether the gate asks for the user at all. */
  predicate NeedsUser(path: string) {
    !IsHandlerPath(path) && !IsPublicAsset(path)
  }

  /** `middleware(request)` for a request whose pathname is `path`. */
  function Gate(path: string, auth: AuthOutcome): Decision {
    if IsHandlerPath(path) then Next
    else if IsPublicAsset(path) then Next
    else
      match auth
      case SignedIn => Next
      case NoUser => Redirect(SignIn)
      case AuthError => Redirect(SignIn)
  }

  /**
   * A path the gate does not look up the user for passes whatever the
   * lookup would have given; any other path passes exactly when there is a
   * user, and is otherwise sent to the sign-in page, an exception from the
   * lookup counting as no user.
   */
  lemma GateDecision(path: string, auth: AuthOutcome)
    ensures !NeedsUser(path) ==> Gate(path, auth) == Next
    ensures NeedsUser(path) ==> (Gate(path, auth) == Next <==> auth == SignedIn)
    ensures NeedsUser(path) && auth != SignedIn ==> Gate(path, auth) == Redirect("/handler/sign-in")
  {
  }

  /** The sign-in page is under `/handler`, so a redirected request is let through: there is no redirect loop. */
  lemma NoRedirectLoop(path: string, auth: AuthOutcome, again: AuthOutcome)
    requires Gate(path, auth).Redirect?
    ensures IsHandlerPath(Gate(path, auth).target)
    ensures Gate(Gate(path, auth).target, again) == Next
  {
    assert SignIn[..|"/handler"|] == "/handler";
  }

  // ---------------------------------------------------------------------------
  // The matcher
  // ---------------------------------------------------------------------------

  /** The fixed part of the `/dashboard/:path*` pattern. */
  const DashboardBase: string := "/dashboard"

  /** `/`-separated segments `s` of `:path*`: none of them empty, save a trailing `/`. */
  predicate Segments(s: string) {
    var parts := Split(s, '/');
    forall i :: 0 <= i < |parts| ==> parts[i] != "" || (i == |parts| - 1 && i > 0)
  }

  /**
   * `/dashboard/:path*` read case-sensitively, with an optional trailing `/`:
   * the base, then zero or more non-empty segments each after a `/`, with one
   * optional trailing `/`.
   */
  predicate Matched(path: string) {
    && StartsWith(path, DashboardBase)
    && var rest := path[|DashboardBase|..];
       rest == "" || rest == "/" || (rest[0] == '/' && Segments(rest[1..]))
  }

  /**
   * The whole route gate: the middleware runs only on matched paths, and the
   * others pass untouched.
   */
  function Route(path: string, auth: AuthOutcome): Decision {
    if Matched(path) then Gate(path, auth) else Next
  }

  /** A matched path starts with `/d`, so it is neither an authentication page nor a public asset. */
  lemma MatchedNeedsUser(path: string)
    requires Matched(path)
    ensures NeedsUser(path)
  {
    assert path[1] == DashboardBase[1] == 'd';
    assert "/handler"[1] == 'h' && "/_next"[1] == '_' && "/api"[1] == 'a' && "/favicon.ico"[1] == 'f';
  }

  /**
   * On a matched path the outcome depends only on the authentication
   * result: a user passes, and no user or a failed lookup goes to sign-in.
   */
  lemma DashboardDependsOnlyOnAuth(path: string, other: string, auth: AuthOutcome)
    requires Matched(path) && Matched(other)
    ensures Route(path, auth) == Route(other, auth)
    ensures Route(path, auth) == if auth == SignedIn then Next else Redirect(SignIn)
  {
    MatchedNeedsUser(path);
    MatchedNeedsUser(other);
  }

  /** What the base may be followed by: each segment of `:path*` after a `/`. */
  function Tail(segments: seq<string>): string {
    if |segments| == 0 then "" else "/" + Join(segments, '/')
  }

  /** Segments `:path*` can take: non-empty, without a `/`. */
  predicate PathSegments(segments: seq<string>) {
    forall i :: 0 <= i < |segments| ==> segments[i] != "" && '/' !in segments[i]
  }

  /** The base followed by any non-empty segments is matched, with or without a trailing `/`. */
  lemma SegmentsAreMatched(segments: seq<string>)
    requires PathSegments(segments)
    ensures Matched(DashboardBase + Tail(segments)) && Matched(DashboardBase + Tail(segments) + "/")
  {
    var tail := Tail(segments);
    assert DashboardBase + tail + "/" == DashboardBase + (tail + "/");
    if |segments| == 0 {
      MatchedByRest("");
      MatchedByRest("/");
    } else {
      var joined := Join(segments, '/');
      SegmentsOfJoin(segments);
      assert tail[1..] == joined;
      assert (tail + "/")[1..] == joined + "/";
      MatchedByRest(tail);
      MatchedByRest(tail + "/");
    }
  }

  /** Conversely, every matched path is the base followed by such segments, with or without a trailing `/`. */
  lemma MatchedHasSegments(path: string)
    requires Matched(path)
    ensures exists segments :: PathSegments(segments)
                               && (path == DashboardBase + Tail(segments) || path == DashboardBase + Tail(segments) + "/")
  {
    var rest := path[|DashboardBase|..];
    assert path == DashboardBase + rest by {
      assert path[..|DashboardBase|] == DashboardBase;
    }
    if rest == "" {
      assert path == DashboardBase + Tail([]);
    } else if rest == "/" {
      assert path == DashboardBase + Tail([]) + "/";
    } else {
      var s := rest[1..];
      assert rest == "/" + s;
      var segments, closing := SegmentsOf(s);
      assert rest == Tail(segments) + (if closing then "/" else "");
      assert DashboardBase + Tail(segments) + "/" == DashboardBase + (Tail(segments) + "/");
    }
  }

  /** Allowed segments are non-empty segments joined by `/`, followed by `/` when `closing`. */
  lemma SegmentsOf(s: string) returns (segments: seq<string>, closing: bool)
    requires Segments(s)
    ensures |segments| > 0 && PathSegments(segments)
    ensures s == Join(segments, '/') + (if closing then "/" else "")
  {
    var parts := Split(s, '/');
    JoinSplit(s, '/');
    assert forall p :: p in parts ==> '/' !in p;
    assert forall i :: 0 <= i < |parts| ==> parts[i] in parts;
    if parts[|parts| - 1] != "" {
      segments, closing := parts, false;
    } else {
      segments, closing := parts[..|parts| - 1], true;
      assert parts == segments + [""];
      assert forall i :: 0 <= i < |segments| ==> segments[i] == parts[i];
      JoinAppendEmpty(segments, '/');
    }
  }

  /** The base followed by an allowed rest is matched. */
  lemma MatchedByRest(rest: string)
    requires rest == "" || rest == "/" || (rest[0] == '/' && Segments(rest[1..]))
    ensures Matched(DashboardBase + rest)
  {
    var path := DashboardBase + rest;
    assert path[..|DashboardBase|] == DashboardBase;
    assert path[|DashboardBase|..] == rest;
  }

  /** Non-empty segments joined by `/`, with or without a closing `/`, are allowed segments. */
  lemma SegmentsOfJoin(segments: seq<string>)
    requires |segments| > 0 && PathSegments(segments)
    ensures Segments(Join(segments, '/')) && Segments(Join(segments, '/') + "/")
  {
    assert forall p :: p in segments ==> '/' !in p;
    SplitJoin(segments, '/');
    var closed := segments + [""];
    assert forall p :: p in closed ==> '/' !in p;
    JoinAppendEmpty(segments, '/');
    SplitJoin(closed, '/');
  }

  /** Joining one more, empty, part adds a trailing separator. */
  lemma {:induction false} JoinAppendEmpty(parts: seq<string>, sep: char)
    requires |parts| > 0
    ensures Join(parts + [""], sep) == Join(parts, sep) + [sep]
    decreases |parts|
  {
    if |parts| > 1 {
      assert (parts + [""])[1..] == parts[1..] + [""];
      JoinAppendEmpty(parts[1..], sep);
    }
  }

  /** A matched path is the base alone or the base followed by a `/`: `/dashboards` is not matched. */
  lemma MatchedContinuesWithSlash(path: string)
    requires Matched(path)
    ensures path == DashboardBase || (|path| > |DashboardBase| && path[|DashboardBase|] == '/')
  {
    assert path[..|DashboardBase|] == DashboardBase;
    if |path| == |DashboardBase| {
      assert path == path[..|DashboardBase|];
    }
  }
}
