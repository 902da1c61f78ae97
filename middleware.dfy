/** The maintenance gate src/middleware.ts: when `MAINTENANCE_MODE` is the text `true`, every page
    except `/maintenance` is redirected there; otherwise every request passes. The path matcher
    that keeps API routes, Next.js assets and the favicon away from the gate is modelled too. */
module Middleware {
  import opened Wrappers
  import opened Js

  datatype Decision = Pass | RedirectTo(path: string)

  const MaintenancePath: string := "/maintenance"

  /** `middleware`, given `MAINTENANCE_MODE` and the request's pathname. */
  function Gate(maintenanceMode: Option<string>, pathname: string): (d: Decision)
    ensures maintenanceMode != Some("true") ==> d == Pass
    ensures maintenanceMode == Some("true") ==> (d == Pass <==> pathname == MaintenancePath)
    ensures d.RedirectTo? ==> d.path == MaintenancePath
  {
    if maintenanceMode != Some("true") then Pass
    else if pathname == MaintenancePath then Pass
    else RedirectTo(MaintenancePath)
  }

  /** Following a redirect lands on a page that passes, so the gate never redirects twice in a
      row, whatever the mode. */
  lemma NoRedirectLoop(maintenanceMode: Option<string>, pathname: string)
    ensures var d := Gate(maintenanceMode, pathname);
      d.RedirectTo? ==> Gate(maintenanceMode, d.path) == Pass
  {
  }

  /** The prefixes the matcher `/((?!api|_next/static|_next/image|favicon.ico).*)` refuses right
      after the leading slash. */
  const Excluded: seq<string> := ["api", "_next/static", "_next/image", "favicon.ico"]

  /** Whether the gate runs on a path at all. The lookahead's `.` in `favicon.ico` matches any
      character. */
  predicate Matched(pathname: string) {
    |pathname| >= 1 && pathname[0] == '/'
    && !StartsWith(pathname[1..], "api") && !StartsWith(pathname[1..], "_next/static")
    && !StartsWith(pathname[1..], "_next/image") && !FaviconLike(pathname[1..])
  }

  predicate FaviconLike(s: string) {
    |s| >= 11 && s[..7] == "favicon" && s[8..11] == "ico"
  }

  /** What a request meets: the gate when the matcher selects its path, a pass otherwise. */
  function Route(maintenanceMode: Option<string>, pathname: string): (d: Decision)
    ensures d.RedirectTo? ==> Matched(pathname) && maintenanceMode == Some("true") && pathname != MaintenancePath
  {
    if Matched(pathname) then Gate(maintenanceMode, pathname) else Pass
  }

  /** API routes and Next.js assets are never redirected, even in maintenance mode, and the
      maintenance page itself is a matched path that passes. */
  lemma ApiAndAssetsPass(maintenanceMode: Option<string>, rest: string)
    ensures Route(maintenanceMode, "/api" + rest) == Pass
    ensures Route(maintenanceMode, "/_next/static" + rest) == Pass
    ensures Matched(MaintenancePath) && Route(maintenanceMode, MaintenancePath) == Pass
  {
    assert ("/api" + rest)[1..][..3] == "api";
    assert ("/_next/static" + rest)[1..][..12] == "_next/static";
    var m := MaintenancePath[1..];
    assert m[0] == 'm';
    assert !StartsWith(m, "api") && !StartsWith(m, "_next/static") && !StartsWith(m, "_next/image");
  }

  /** In maintenance mode every matched path other than the maintenance page is redirected to it. */
  lemma MaintenanceRedirectsPages(pathname: string)
    requires Matched(pathname) && pathname != MaintenancePath
    ensures Route(Some("true"), pathname) == RedirectTo(MaintenancePath)
  {
  }
}
