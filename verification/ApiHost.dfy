/**
 Canonical API hosts: whatever scheme, slashes, whitespace or API path a configured value is decorated with, the program
 finds the host again, and the websocket base it builds from the host leads back to it.
 */
module ApiHost {
  import opened Common

  const DEFAULT_HOST: string := "app.lap.dev"

  const SCHEMES: seq<string> := ["https://", "http://", "wss://", "ws://"]

  const API_PATHS: seq<string> := ["/api/v1", "/api"]

  /** The White_Space property of Unicode. */
  predicate IsSpace(c: char) {
    || '\U{0009}' <= c <= '\U{000D}' || c == ' ' || c == '\U{0085}' || c == '\U{00A0}' || c == '\U{1680}'
    || '\U{2000}' <= c <= '\U{200A}' || c == '\U{2028}' || c == '\U{2029}' || c == '\U{202F}' || c == '\U{205F}'
    || c == '\U{3000}'
  }

  predicate IsSlash(c: char) {
    c == '/'
  }

  // ---------- what the passes compute ----------

  function TrimStart(s: string, p: char -> bool): string {
    if s != "" && p(s[0]) then TrimStart(s[1..], p) else s
  }

  function TrimEnd(s: string, p: char -> bool): string {
    if s != "" && p(s[|s| - 1]) then TrimEnd(s[..|s| - 1], p) else s
  }

  predicate EndsWith(s: string, suffix: string) {
    |suffix| <= |s| && s[|s| - |suffix|..] == suffix
  }

  function StripScheme(s: string, schemes: seq<string>): string {
    if schemes == [] then s
    else if schemes[0] <= s then s[|schemes[0]|..]
    else StripScheme(s, schemes[1..])
  }

  function StripPath(s: string, paths: seq<string>): string {
    if paths == [] then s
    else if EndsWith(s, paths[0]) then TrimEnd(s[..|s| - |paths[0]|], IsSlash)
    else StripPath(s, paths[1..])
  }

  function OrDefault(s: string): string {
    if s == "" then DEFAULT_HOST else s
  }

  function Resolved(raw: Option<string>): string {
    var value := if raw.Some? then TrimEnd(TrimStart(raw.value, IsSpace), IsSpace) else "";
    if value == "" then DEFAULT_HOST
    else OrDefault(StripPath(TrimEnd(TrimStart(StripScheme(value, SCHEMES), IsSlash), IsSlash), API_PATHS))
  }

  // ---------- the program ----------

  method TrimStartMatches(s: string, p: char -> bool) returns (r: string)
    ensures r == TrimStart(s, p)
  {
    r := s;
    while r != "" && p(r[0])
      invariant TrimStart(r, p) == TrimStart(s, p)
      decreases |r|
    {
      r := r[1..];
    }
  }

  method TrimEndMatches(s: string, p: char -> bool) returns (r: string)
    ensures r == TrimEnd(s, p)
  {
    r := s;
    while r != "" && p(r[|r| - 1])
      invariant TrimEnd(r, p) == TrimEnd(s, p)
      decreases |r|
    {
      r := r[..|r| - 1];
    }
  }

  method ResolveApiHost(raw: Option<string>) returns (host: string)
    ensures host == Resolved(raw)
  {
    if raw == None {
      return DEFAULT_HOST;
    }
    host := TrimStartMatches(raw.value, IsSpace);
    host := TrimEndMatches(host, IsSpace);
    if host == "" {
      return DEFAULT_HOST;
    }
    ghost var value := host;
    var i := 0;
    while i < |SCHEMES|
      invariant 0 <= i <= |SCHEMES| && host == value
      invariant StripScheme(value, SCHEMES[i..]) == StripScheme(value, SCHEMES)
    {
      if SCHEMES[i] <= host {
        host := host[|SCHEMES[i]|..];
        break;
      }
      i := i + 1;
    }
    assert host == StripScheme(value, SCHEMES);
    host := TrimStartMatches(host, IsSlash);
    host := TrimEndMatches(host, IsSlash);
    ghost var path := host;
    i := 0;
    while i < |API_PATHS|
      invariant 0 <= i <= |API_PATHS| && host == path
      invariant StripPath(path, API_PATHS[i..]) == StripPath(path, API_PATHS)
    {
      if EndsWith(host, API_PATHS[i]) {
        host := TrimEndMatches(host[..|host| - |API_PATHS[i]|], IsSlash);
        break;
      }
      i := i + 1;
    }
    assert host == StripPath(path, API_PATHS);
    if host == "" {
      host := DEFAULT_HOST;
    }
  }

  // ---------- trimming ----------

  lemma {:induction false} TrimStartExact(a: string, s: string, p: char -> bool)
    requires (forall i | 0 <= i < |a| :: p(a[i])) && (s == "" || !p(s[0]))
    ensures TrimStart(a + s, p) == s
  {
    if a == "" {
      assert a + s == s;
    } else {
      assert (a + s)[1..] == a[1..] + s;
      TrimStartExact(a[1..], s, p);
    }
  }

  lemma {:induction false} TrimEndExact(s: string, a: string, p: char -> bool)
    requires (forall i | 0 <= i < |a| :: p(a[i])) && (s == "" || !p(s[|s| - 1]))
    ensures TrimEnd(s + a, p) == s
  {
    if a == "" {
      assert s + a == s;
    } else {
      assert (s + a)[..|s + a| - 1] == s + a[..|a| - 1];
      TrimEndExact(s, a[..|a| - 1], p);
    }
  }

  function Slashes(n: nat): (s: string)
    ensures |s| == n && forall i | 0 <= i < n :: s[i] == '/'
  {
    seq(n, i => '/')
  }

  // ---------- canonical hosts and their decorations ----------

  predicate Canonical(h: string) {
    h != "" && '/' !in h && !IsSpace(h[0]) && !IsSpace(h[|h| - 1])
  }

  datatype Decoration = Decoration(before: string, scheme: string, lead: nat, gap: nat, path: string, tail: nat, after: string)

  predicate IsDecoration(d: Decoration) {
    && (forall i | 0 <= i < |d.before| :: IsSpace(d.before[i]))
    && (forall i | 0 <= i < |d.after| :: IsSpace(d.after[i]))
    && (d.scheme == "" || d.scheme == "https://" || d.scheme == "http://" || d.scheme == "wss://" || d.scheme == "ws://")
    && (d.path == "" || d.path == "/api/v1" || d.path == "/api")
  }

  /** Optional scheme, slashes, the host, slashes, an optional API path, slashes, and whitespace around it all. */
  function Decorated(h: string, d: Decoration): string {
    d.before + Body(h, d) + d.after
  }

  function Body(h: string, d: Decoration): string {
    d.scheme + Plain(h, d)
  }

  function Plain(h: string, d: Decoration): string {
    Slashes(d.lead) + h + Slashes(d.gap) + d.path + Slashes(d.tail)
  }

  /** How many slashes follow the host directly. */
  function RunAfterHost(d: Decoration): nat {
    if d.path == "" then d.gap + d.tail else d.gap + 1
  }

  /** The host itself, followed by two slashes, reads as a scheme. */
  predicate Misread(h: string, d: Decoration) {
    d.scheme == "" && d.lead == 0 && RunAfterHost(d) >= 2 && h + "//" in SCHEMES
  }

  lemma {:induction false} BodyEnds(h: string, d: Decoration)
    requires Canonical(h) && IsDecoration(d)
    ensures var b := Body(h, d);
            b != "" && !IsSpace(b[0]) && !IsSpace(b[|b| - 1])
  {
    var p := Plain(h, d);
    assert p != "" && (p[0] == '/' || p[0] == h[0]);
    var q := Slashes(d.lead) + h + Slashes(d.gap);
    assert q[|q| - 1] == '/' || q[|q| - 1] == h[|h| - 1];
    assert p[|p| - 1] == '/' || p[|p| - 1] == q[|q| - 1] || (d.path != "" && p[|p| - 1] == d.path[|d.path| - 1]);
    assert Body(h, d)[|Body(h, d)| - 1] == p[|p| - 1];
  }

  lemma {:induction false} WhitespaceGone(h: string, d: Decoration)
    requires Canonical(h) && IsDecoration(d)
    ensures TrimEnd(TrimStart(Decorated(h, d), IsSpace), IsSpace) == Body(h, d)
  {
    BodyEnds(h, d);
    var b := Body(h, d);
    assert Decorated(h, d) == d.before + (b + d.after);
    TrimStartExact(d.before, b + d.after, IsSpace);
    TrimEndExact(b, d.after, IsSpace);
  }

  /** A value starts with at most one of the schemes. */
  lemma {:induction false} OneScheme(s: string, scheme: string)
    requires scheme in SCHEMES && scheme <= s
    ensures StripScheme(s, SCHEMES) == s[|scheme|..]
  {
    assert s[0] == scheme[0] && s[1] == scheme[1] && s[2] == scheme[2] && s[3] == scheme[3] && s[4] == scheme[4];
    StripUnfolds(s);
  }

  lemma {:induction false} StripUnfolds(s: string)
    ensures StripScheme(s, SCHEMES) ==
            if "https://" <= s then s[8..] else if "http://" <= s then s[7..]
            else if "wss://" <= s then s[6..] else if "ws://" <= s then s[5..] else s
  {
    assert SCHEMES[1..] == ["http://", "wss://", "ws://"];
    assert SCHEMES[1..][1..] == ["wss://", "ws://"];
    assert SCHEMES[1..][1..][1..] == ["ws://"];
    assert SCHEMES[1..][1..][1..][1..] == [];
    assert StripScheme(s, ["ws://"]) == if "ws://" <= s then s[5..] else s;
    assert StripScheme(s, ["wss://", "ws://"]) == if "wss://" <= s then s[6..] else StripScheme(s, ["ws://"]);
  }

  /** A scheme ends in two slashes and has no others. */
  predicate SchemeShaped(scheme: string) {
    && |scheme| > 2 && scheme[|scheme| - 1] == '/' && scheme[|scheme| - 2] == '/'
    && forall i | 0 <= i < |scheme| - 2 :: scheme[i] != '/'
  }

  lemma {:induction false} SchemesAreShaped(scheme: string)
    requires scheme in SCHEMES
    ensures SchemeShaped(scheme)
  {
  }

  /** A host and `run` slashes begin with a scheme only if the host with two slashes is the scheme. */
  lemma {:induction false} HostStartsWithScheme(h: string, rest: string, run: nat, scheme: string)
    requires '/' !in h && SchemeShaped(scheme) && run <= |rest| && forall i | 0 <= i < run :: rest[i] == '/'
    requires run < |rest| ==> rest[run] != '/'
    requires rest == "" || run > 0
    ensures scheme <= h + rest <==> run >= 2 && h + "//" == scheme
  {
    if scheme <= h + rest {
      HostIsScheme(h, rest, scheme);
    }
    if run >= 2 && h + "//" == scheme {
      assert rest == "//" + rest[2..];
      assert h + rest == scheme + rest[2..];
    }
  }

  /** A scheme begins the undecorated part only if the host with two slashes is that scheme. */
  lemma {:induction false} PlainStartsWithScheme(h: string, d: Decoration, scheme: string)
    requires Canonical(h) && IsDecoration(d) && scheme in SCHEMES
    ensures scheme <= Plain(h, d) <==> d.lead == 0 && RunAfterHost(d) >= 2 && h + "//" == scheme
  {
    SchemesAreShaped(scheme);
    if d.lead > 0 {
      assert Plain(h, d)[0] == '/';
    } else {
      var rest := Slashes(d.gap) + d.path + Slashes(d.tail);
      assert Plain(h, d) == h + rest;
      RestOf(d, rest);
      HostStartsWithScheme(h, rest, RunAfterHost(d), scheme);
    }
  }

  lemma {:induction false} RestOf(d: Decoration, rest: string)
    requires IsDecoration(d) && rest == Slashes(d.gap) + d.path + Slashes(d.tail)
    ensures RunAfterHost(d) <= |rest| && forall i | 0 <= i < RunAfterHost(d) :: rest[i] == '/'
    ensures RunAfterHost(d) < |rest| ==> rest[RunAfterHost(d)] != '/'
    ensures rest == "" || RunAfterHost(d) > 0
  {
  }

  lemma {:induction false} HostIsScheme(h: string, rest: string, scheme: string)
    requires '/' !in h && |scheme| >= 2 && scheme <= h + rest && forall i | 0 <= i < |scheme| - 2 :: scheme[i] != '/'
    requires scheme[|scheme| - 1] == '/' && scheme[|scheme| - 2] == '/'
    requires rest == "" || rest[0] == '/'
    ensures h + "//" == scheme && |rest| >= 2 && rest[0] == '/' && rest[1] == '/'
  {
    var s, n := h + rest, |scheme|;
    assert forall i | 0 <= i < n :: scheme[i] == s[i];
    assert forall i | 0 <= i < |h| :: s[i] == h[i] && h[i] in h;
    assert s[n - 2] == '/';
    assert rest != "";
    assert s[|h|] == '/';
    assert |h| == n - 2;
    assert h == scheme[..n - 2];
    assert scheme == scheme[..n - 2] + "//";
    assert s[n - 2] == rest[0] && s[n - 1] == rest[1];
  }

  /** Without a misreading, exactly the decoration's own scheme goes. */
  lemma {:induction false} SchemeGone(h: string, d: Decoration)
    requires Canonical(h) && IsDecoration(d) && !Misread(h, d)
    ensures StripScheme(Body(h, d), SCHEMES) == Plain(h, d)
  {
    var b := Body(h, d);
    if d.scheme != "" {
      OneScheme(b, d.scheme);
    } else {
      assert b == Plain(h, d);
      forall scheme | scheme in SCHEMES
        ensures !(scheme <= b)
      {
        PlainStartsWithScheme(h, d, scheme);
      }
      assert SCHEMES[0] in SCHEMES && SCHEMES[1] in SCHEMES && SCHEMES[2] in SCHEMES && SCHEMES[3] in SCHEMES;
      StripUnfolds(b);
    }
  }

  // ---------- slashes and API paths ----------

  lemma {:induction false} SlashesGone(h: string, d: Decoration)
    requires Canonical(h) && IsDecoration(d)
    ensures TrimEnd(TrimStart(Plain(h, d), IsSlash), IsSlash) ==
            if d.path == "" then h else h + Slashes(d.gap) + d.path
  {
    var rest := h + Slashes(d.gap) + d.path + Slashes(d.tail);
    assert Plain(h, d) == Slashes(d.lead) + rest;
    assert rest[0] == h[0] && h[0] in h;
    TrimStartExact(Slashes(d.lead), rest, IsSlash);
    if d.path == "" {
      assert rest == h + (Slashes(d.gap) + Slashes(d.tail));
      assert h[|h| - 1] in h;
      TrimEndExact(h, Slashes(d.gap) + Slashes(d.tail), IsSlash);
    } else {
      var kept := h + Slashes(d.gap) + d.path;
      assert kept[|kept| - 1] == d.path[|d.path| - 1];
      TrimEndExact(kept, Slashes(d.tail), IsSlash);
    }
  }

  lemma {:induction false} PathUnfolds(s: string)
    ensures StripPath(s, API_PATHS) ==
            if EndsWith(s, "/api/v1") then TrimEnd(s[..|s| - 7], IsSlash)
            else if EndsWith(s, "/api") then TrimEnd(s[..|s| - 4], IsSlash) else s
  {
    assert API_PATHS[1..] == ["/api"];
    assert ["/api"][1..] == [];
    assert StripPath(s, ["/api"]) == if EndsWith(s, "/api") then TrimEnd(s[..|s| - 4], IsSlash) else s;
  }

  lemma {:induction false} NoPath(h: string)
    requires '/' !in h
    ensures StripPath(h, API_PATHS) == h
  {
    PathUnfolds(h);
    assert forall i | 0 <= i < |h| :: h[i] in h;
    assert "/api/v1"[0] == '/' && "/api"[0] == '/';
    assert |h| >= 7 ==> h[|h| - 7..][0] == h[|h| - 7];
    assert |h| >= 4 ==> h[|h| - 4..][0] == h[|h| - 4];
  }

  lemma {:induction false} PathGone(h: string, gap: nat, path: string)
    requires '/' !in h && path in API_PATHS
    ensures StripPath(h + Slashes(gap) + path, API_PATHS) == h
  {
    var s := h + Slashes(gap) + path;
    PathUnfolds(s);
    assert s[|s| - |path|..] == path && s[..|s| - |path|] == h + Slashes(gap);
    assert h == "" || h[|h| - 1] in h;
    TrimEndExact(h, Slashes(gap), IsSlash);
    assert s[|s| - 1] == path[|path| - 1];
    assert |s| >= 7 ==> s[|s| - 7..][6] == s[|s| - 1];
  }

  // ---------- the laws ----------

  lemma {:induction false} DecorationGoes(h: string, d: Decoration)
    requires Canonical(h) && IsDecoration(d) && !Misread(h, d)
    ensures Resolved(Some(Decorated(h, d))) == h
  {
    WhitespaceGone(h, d);
    BodyEnds(h, d);
    SchemeGone(h, d);
    SlashesGone(h, d);
    if d.path == "" {
      NoPath(h);
    } else {
      PathGone(h, d.gap, d.path);
    }
  }

  lemma {:induction false} HostTakenForScheme(h: string, rest: string)
    requires h + "//" in SCHEMES && |rest| >= 2 && rest[0] == '/' && rest[1] == '/'
    ensures StripScheme(h + rest, SCHEMES) == rest[2..]
  {
    var s := h + rest;
    assert rest == "//" + rest[2..];
    assert s == (h + "//") + rest[2..];
    OneScheme(s, h + "//");
  }

  lemma {:induction false} SchemeMisread(h: string, d: Decoration)
    requires Canonical(h) && IsDecoration(d) && Misread(h, d)
    ensures var rest := Slashes(d.gap) + d.path + Slashes(d.tail);
            |rest| >= 2 && StripScheme(Body(h, d), SCHEMES) == rest[2..]
  {
    var rest := Slashes(d.gap) + d.path + Slashes(d.tail);
    assert Body(h, d) == h + rest;
    RestOf(d, rest);
    HostTakenForScheme(h, rest);
  }

  /** A misread value resolves to a bare API path or to the default host. */
  lemma {:induction false} MisreadResolves(h: string, d: Decoration)
    requires Canonical(h) && IsDecoration(d) && Misread(h, d)
    ensures Resolved(Some(Decorated(h, d))) ==
            if d.path == "" then "app.lap.dev" else if d.path == "/api" then "api" else "api/v1"
  {
    WhitespaceGone(h, d);
    BodyEnds(h, d);
    SchemeMisread(h, d);
    Remainder(d, Slashes(d.gap) + d.path + Slashes(d.tail));
    assert "/api"[1..] == "api" && "/api/v1"[1..] == "api/v1";
  }

  /** The only hosts that can be misread are the schemes themselves, up to their colon. */
  lemma {:induction false} MisreadMeans(h: string, d: Decoration)
    ensures Misread(h, d) <==>
            && (h == "https:" || h == "http:" || h == "wss:" || h == "ws:")
            && d.scheme == "" && d.lead == 0 && (if d.path == "" then d.gap + d.tail >= 2 else d.gap >= 1)
  {
    assert (h + "//")[..|h|] == h;
    assert "https:" + "//" == "https://" && "http:" + "//" == "http://" && "wss:" + "//" == "wss://" && "ws:" + "//" == "ws://";
    assert "https://"[..6] == "https:" && "http://"[..5] == "http:" && "wss://"[..4] == "wss:" && "ws://"[..3] == "ws:";
    assert SCHEMES[0] in SCHEMES && SCHEMES[1] in SCHEMES && SCHEMES[2] in SCHEMES && SCHEMES[3] in SCHEMES;
  }

  /** For instance. */
  lemma {:induction false} SchemeIsNoHost()
    ensures Canonical("https:") && Resolved(Some("https:" + "//")) == "app.lap.dev"
  {
    var d := Decoration("", "", 0, 2, "", 0, "");
    var h := "https:";
    assert forall c | c in h :: c != '/';
    assert h + "//" == SCHEMES[0];
    assert Slashes(2) == "//" && Slashes(0) == "";
    assert Decorated(h, d) == h + "//";
    MisreadResolves(h, d);
  }

  lemma {:induction false} SchemesEndInColon(h: string)
    ensures h + "//" in SCHEMES ==> h != "" && h[|h| - 1] == ':'
  {
    assert forall s | s in SCHEMES :: |s| >= 3 && s[|s| - 3] == ':';
    assert (h + "//")[..|h|] == h;
  }

  /** So it never resolves to the host. */
  lemma {:induction false} MisreadLosesHost(h: string, d: Decoration)
    requires Canonical(h) && IsDecoration(d) && Misread(h, d)
    ensures Resolved(Some(Decorated(h, d))) != h
  {
    MisreadResolves(h, d);
    SchemesEndInColon(h);
  }

  /** After two of the slashes that follow the host, only a bare API path is left, or nothing. */
  lemma {:induction false} Remainder(d: Decoration, rest: string)
    requires IsDecoration(d) && RunAfterHost(d) >= 2 && rest == Slashes(d.gap) + d.path + Slashes(d.tail)
    ensures StripPath(TrimEnd(TrimStart(rest[2..], IsSlash), IsSlash), API_PATHS) ==
            if d.path == "" then "" else d.path[1..]
  {
    if d.path == "" {
      assert rest[2..] == Slashes(d.gap + d.tail - 2) + "";
      TrimStartExact(Slashes(d.gap + d.tail - 2), "", IsSlash);
      PathUnfolds("");
    } else {
      var bare := d.path[1..];
      assert d.path == "/" + bare;
      assert rest[2..] == Slashes(d.gap - 1) + (bare + Slashes(d.tail));
      assert bare == "api" || bare == "api/v1";
      TrimStartExact(Slashes(d.gap - 1), bare + Slashes(d.tail), IsSlash);
      TrimEndExact(bare, Slashes(d.tail), IsSlash);
      PathUnfolds(bare);
      assert "api/v1"[2..] == "i/v1";
    }
  }

  /**
   Resolving undoes every decoration of a canonical host, with one exception that a caller can see: an undecorated
   front, and a host that together with the slashes behind it reads as a scheme.
   */
  lemma {:induction false} ResolveUndoesDecoration(h: string, d: Decoration)
    requires Canonical(h) && IsDecoration(d)
    ensures Resolved(Some(Decorated(h, d))) == h <==> !Misread(h, d)
  {
    if Misread(h, d) {
      MisreadLosesHost(h, d);
    } else {
      DecorationGoes(h, d);
    }
  }

  /** A host without a trailing colon is never misread. */
  lemma {:induction false} NoColonNoMisreading(h: string, d: Decoration)
    requires Canonical(h) && IsDecoration(d) && h[|h| - 1] != ':'
    ensures Resolved(Some(Decorated(h, d))) == h
  {
    SchemesEndInColon(h);
    ResolveUndoesDecoration(h, d);
  }

  // ---------- any input ----------

  /** Nothing configured, or only whitespace, means the hosted service. */
  lemma {:induction false} BlankIsDefault(blank: string)
    requires forall i | 0 <= i < |blank| :: IsSpace(blank[i])
    ensures Resolved(None) == "app.lap.dev" && Resolved(Some(blank)) == "app.lap.dev"
  {
    assert blank == blank + "";
    TrimStartExact(blank, "", IsSpace);
  }

  /** The 25 code points that count as whitespace. */
  lemma SpaceMeans(c: char)
    ensures IsSpace(c) <==>
            c as int in {9, 10, 11, 12, 13, 32, 0x85, 0xA0, 0x1680, 0x2000, 0x2001, 0x2002, 0x2003, 0x2004, 0x2005, 0x2006,
                         0x2007, 0x2008, 0x2009, 0x200A, 0x2028, 0x2029, 0x202F, 0x205F, 0x3000}
  {
  }

  lemma {:induction false} TrimStartStops(s: string, p: char -> bool)
    ensures TrimStart(s, p) == "" || !p(TrimStart(s, p)[0])
  {
    if s != "" && p(s[0]) {
      TrimStartStops(s[1..], p);
    }
  }

  lemma {:induction false} TrimEndStops(s: string, p: char -> bool)
    ensures TrimEnd(s, p) <= s && (TrimEnd(s, p) == "" || !p(TrimEnd(s, p)[|TrimEnd(s, p)| - 1]))
  {
    if s != "" && p(s[|s| - 1]) {
      TrimEndStops(s[..|s| - 1], p);
    }
  }

  /** Whatever was configured, the result is not empty and neither starts nor ends with a slash. */
  lemma {:induction false} ResolvedIsClean(raw: Option<string>)
    ensures var r := Resolved(raw);
            r != "" && r[0] != '/' && r[|r| - 1] != '/'
  {
    var value := if raw.Some? then TrimEnd(TrimStart(raw.value, IsSpace), IsSpace) else "";
    if value != "" {
      var left := TrimStart(StripScheme(value, SCHEMES), IsSlash);
      TrimStartStops(StripScheme(value, SCHEMES), IsSlash);
      TrimEndStops(left, IsSlash);
      PathIsClean(TrimEnd(left, IsSlash));
    }
  }

  lemma {:induction false} PathIsClean(s: string)
    requires s == "" || (s[0] != '/' && s[|s| - 1] != '/')
    ensures var r := StripPath(s, API_PATHS);
            r == "" || (r[0] != '/' && r[|r| - 1] != '/')
  {
    PathUnfolds(s);
    if EndsWith(s, "/api/v1") {
      TrimEndStops(s[..|s| - 7], IsSlash);
    } else if EndsWith(s, "/api") {
      TrimEndStops(s[..|s| - 4], IsSlash);
    }
  }

  // ---------- when the result has no path ----------

  /** What is left of a value without its scheme and the slashes at both ends. */
  function Core(value: string): string {
    TrimEnd(TrimStart(StripScheme(value, SCHEMES), IsSlash), IsSlash)
  }

  /** A slash-free host, slashes, and at most one of the API paths. */
  ghost predicate IsHostWithApiPath(s: string) {
    exists h: string, gap: nat, path: string :: IsSplit(s, h, gap, path)
  }

  predicate IsSplit(s: string, h: string, gap: nat, path: string) {
    '/' !in h && (path == "" || path in API_PATHS) && s == h + Slashes(gap) + path
  }

  lemma {:induction false} TrimEndSplit(s: string) returns (n: nat)
    ensures s == TrimEnd(s, IsSlash) + Slashes(n)
  {
    if s != "" && IsSlash(s[|s| - 1]) {
      var m := TrimEndSplit(s[..|s| - 1]);
      n := m + 1;
      assert s == s[..|s| - 1] + "/";
      assert Slashes(m) + "/" == Slashes(n);
    } else {
      n := 0;
    }
  }

  lemma {:induction false} SplitFromResult(s: string, path: string)
    requires path in API_PATHS && EndsWith(s, path) && '/' !in TrimEnd(s[..|s| - |path|], IsSlash)
    ensures IsHostWithApiPath(s)
  {
    var front := s[..|s| - |path|];
    var n := TrimEndSplit(front);
    assert s == front + path;
    assert IsSplit(s, TrimEnd(front, IsSlash), n, path);
  }

  /** Stripping the API path leaves no slash exactly if there was nothing but such a path behind the host. */
  lemma {:induction false} StripPathExact(s: string)
    requires s == "" || s[|s| - 1] != '/'
    ensures '/' !in StripPath(s, API_PATHS) <==> IsHostWithApiPath(s)
  {
    PathUnfolds(s);
    if '/' !in StripPath(s, API_PATHS) {
      if EndsWith(s, "/api/v1") {
        SplitFromResult(s, API_PATHS[0]);
      } else if EndsWith(s, "/api") {
        SplitFromResult(s, API_PATHS[1]);
      } else {
        assert IsSplit(s, s, 0, "");
      }
    }
    if IsHostWithApiPath(s) {
      var h, gap, path :| IsSplit(s, h, gap, path);
      if path == "" {
        NoGapAtTheEnd(s, h, gap);
        NoPath(h);
      } else {
        PathGone(h, gap, path);
      }
    }
  }

  lemma {:induction false} GapEndsInSlash(h: string, gap: nat)
    requires gap > 0
    ensures var s := h + Slashes(gap);
            s != "" && s[|s| - 1] == '/'
  {
    assert (h + Slashes(gap))[|h| + gap - 1] == Slashes(gap)[gap - 1];
  }

  lemma {:induction false} NoGapAtTheEnd(s: string, h: string, gap: nat)
    requires IsSplit(s, h, gap, "") && (s == "" || s[|s| - 1] != '/')
    ensures s == h
  {
    assert s == h + Slashes(gap);
    if gap > 0 {
      GapEndsInSlash(h, gap);
    }
  }

  /**
   The result is a host without a path exactly if the configured value is blank or, without whitespace, one scheme and the
   slashes at its ends, is a slash-free host with at most one of the two API paths behind it.
   */
  lemma {:induction false} ResolvedHasNoPathExactly(raw: Option<string>)
    ensures var value := if raw.Some? then TrimEnd(TrimStart(raw.value, IsSpace), IsSpace) else "";
            '/' !in Resolved(raw) <==> value == "" || IsHostWithApiPath(Core(value))
  {
    var value := if raw.Some? then TrimEnd(TrimStart(raw.value, IsSpace), IsSpace) else "";
    assert '/' !in DEFAULT_HOST;
    if value != "" {
      TrimEndStops(TrimStart(StripScheme(value, SCHEMES), IsSlash), IsSlash);
      StripPathExact(Core(value));
    }
  }

  lemma {:induction false} PrefixAt(prefix: string, s: string, k: nat)
    requires k < |prefix|
    ensures prefix <= s ==> k < |s| && s[k] == prefix[k]
  {
  }

  /** Two slashes in a row do not begin a value with only one slash. */
  lemma {:induction false} NoSchemeInFront(s: string, at: nat, scheme: string)
    requires scheme in SCHEMES && forall i | 0 <= i < |s| && s[i] == '/' :: i == at
    ensures !(scheme <= s)
  {
    var n := |scheme|;
    assert scheme[n - 1] == '/' && scheme[n - 2] == '/';
    PrefixAt(scheme, s, n - 1);
    PrefixAt(scheme, s, n - 2);
  }

  lemma {:induction false} OneSlashNoScheme(s: string, at: nat)
    requires forall i | 0 <= i < |s| && s[i] == '/' :: i == at
    ensures StripScheme(s, SCHEMES) == s
  {
    NoSchemeInFront(s, at, SCHEMES[0]);
    NoSchemeInFront(s, at, SCHEMES[1]);
    NoSchemeInFront(s, at, SCHEMES[2]);
    NoSchemeInFront(s, at, SCHEMES[3]);
    StripUnfolds(s);
  }

  lemma {:induction false} SuffixAt(s: string, suffix: string, k: nat)
    requires k < |suffix|
    ensures EndsWith(s, suffix) ==> s[|s| - |suffix| + k] == suffix[k]
  {
    if EndsWith(s, suffix) {
      assert s[|s| - |suffix|..][k] == s[|s| - |suffix| + k];
    }
  }

  lemma {:induction false} PathIsApi(h: string, path: string)
    requires |path| == 3
    ensures EndsWith(h + "/" + path, "/api") ==> path == "api"
  {
    var v := h + "/" + path;
    assert v[|v| - 4..] == "/" + path;
    assert ("/" + path)[1..] == path;
  }

  lemma {:induction false} OtherPathIsNoApiPath(h: string, path: string)
    requires '/' !in h && '/' !in path && path != "api"
    ensures StripPath(h + "/" + path, API_PATHS) == h + "/" + path
  {
    var v := h + "/" + path;
    PathUnfolds(v);
    assert forall i | 0 <= i < |v| && v[i] == '/' :: i == |h|;
    SuffixAt(v, "/api/v1", 0);
    SuffixAt(v, "/api/v1", 4);
    SuffixAt(v, "/api", 0);
    if |path| == 3 {
      PathIsApi(h, path);
    }
  }

  /** Any other path stays, however well the value begins. */
  lemma {:induction false} OtherPathsStay(h: string, path: string)
    requires Canonical(h) && '/' !in path && path != "" && path != "api" && !IsSpace(path[|path| - 1])
    ensures Resolved(Some(h + "/" + path)) == h + "/" + path
  {
    var v := h + "/" + path;
    assert v == "" + v && v == v + "";
    assert v[0] == h[0] && h[0] in h && v[|v| - 1] == path[|path| - 1] && path[|path| - 1] in path;
    assert forall i | 0 <= i < |v| && v[i] == '/' :: i == |h|;
    TrimStartExact("", v, IsSpace);
    TrimEndExact(v, "", IsSpace);
    OneSlashNoScheme(v, |h|);
    TrimStartExact("", v, IsSlash);
    TrimEndExact(v, "", IsSlash);
    OtherPathIsNoApiPath(h, path);
  }

  /** For instance. */
  lemma {:induction false} PathKept()
    ensures Resolved(Some("a/b")) == "a/b" && '/' in Resolved(Some("a/b"))
  {
    assert "a/b" == "a" + "/" + "b";
    OtherPathsStay("a", "b");
    assert "a/b"[1] == '/';
  }

  // ---------- the websocket base ----------

  predicate HasScheme(s: string) {
    "http://" <= s || "https://" <= s || "ws://" <= s || "wss://" <= s
  }

  function NormalizeWsBase(candidate: string): string {
    var trimmed := TrimEnd(TrimStart(candidate, IsSpace), IsSpace);
    var withScheme := if HasScheme(trimmed) then trimmed else "https://" + trimmed;
    if "http://" <= withScheme then "ws://" + withScheme[7..]
    else if "https://" <= withScheme then "wss://" + withScheme[8..]
    else withScheme
  }

  lemma {:induction false} PrefixChars(prefix: string, s: string, c: char)
    ensures prefix <= s && c in prefix ==> c in s
  {
  }

  lemma {:induction false} NoSlashNoScheme(h: string)
    requires '/' !in h
    ensures !HasScheme(h)
  {
    assert "http://"[5] == "https://"[6] == "ws://"[3] == "wss://"[4] == '/';
    PrefixChars("http://", h, '/');
    PrefixChars("https://", h, '/');
    PrefixChars("ws://", h, '/');
    PrefixChars("wss://", h, '/');
  }

  /** A canonical host gets the secure websocket scheme, and resolving the result gives the host back. */
  lemma {:induction false} WebsocketBaseRoundTrip(h: string)
    requires Canonical(h)
    ensures NormalizeWsBase(h) == "wss://" + h
    ensures Resolved(Some(NormalizeWsBase(h))) == h
  {
    NormalizedHost(h);
    var d := Decoration("", "wss://", 0, 0, "", 0, "");
    assert Decorated(h, d) == "wss://" + h;
    ResolveUndoesDecoration(h, d);
  }

  lemma {:induction false} NormalizedHost(h: string)
    requires Canonical(h)
    ensures NormalizeWsBase(h) == "wss://" + h
  {
    assert h == "" + h && h == h + "";
    TrimStartExact("", h, IsSpace);
    TrimEndExact(h, "", IsSpace);
    NoSlashNoScheme(h);
    var s := "https://" + h;
    assert s[4] == 's' && "http://"[4] == ':' && s[8..] == h;
  }

  /** A value with a scheme keeps its security and everything behind the scheme. */
  lemma {:induction false} SchemedBase(rest: string)
    requires rest != "" && !IsSpace(rest[|rest| - 1])
    ensures NormalizeWsBase("http://" + rest) == "ws://" + rest && NormalizeWsBase("https://" + rest) == "wss://" + rest
    ensures NormalizeWsBase("ws://" + rest) == "ws://" + rest && NormalizeWsBase("wss://" + rest) == "wss://" + rest
  {
    SchemedHttp(rest);
    SchemedWebsocket(rest);
  }

  lemma {:induction false} SchemedHttp(rest: string)
    requires rest != "" && !IsSpace(rest[|rest| - 1])
    ensures NormalizeWsBase("http://" + rest) == "ws://" + rest && NormalizeWsBase("https://" + rest) == "wss://" + rest
  {
    AlreadyTrimmed("http://", rest);
    AlreadyTrimmed("https://", rest);
    assert ("https://" + rest)[4] == 's' && "http://"[4] == ':';
    assert ("http://" + rest)[7..] == rest && ("https://" + rest)[8..] == rest;
  }

  lemma {:induction false} SchemedWebsocket(rest: string)
    requires rest != "" && !IsSpace(rest[|rest| - 1])
    ensures NormalizeWsBase("ws://" + rest) == "ws://" + rest && NormalizeWsBase("wss://" + rest) == "wss://" + rest
  {
    AlreadyTrimmed("ws://", rest);
    AlreadyTrimmed("wss://", rest);
    assert ("ws://" + rest)[0] == 'w' && ("wss://" + rest)[0] == 'w' && "http://"[0] == 'h' && "https://"[0] == 'h';
  }

  lemma {:induction false} AlreadyTrimmed(scheme: string, rest: string)
    requires scheme != "" && !IsSpace(scheme[0]) && rest != "" && !IsSpace(rest[|rest| - 1])
    ensures TrimEnd(TrimStart(scheme + rest, IsSpace), IsSpace) == scheme + rest
  {
    var s := scheme + rest;
    assert s == "" + s && s == s + "";
    TrimStartExact("", s, IsSpace);
    TrimEndExact(s, "", IsSpace);
  }

  /** The environment's value, or else the stored host name, made into a websocket base. */
  function WebsocketBaseUrl(environment: Option<string>, stored: string): string {
    var host := if environment.Some? then Resolved(environment)
                else Resolved(if TrimEnd(TrimStart(stored, IsSpace), IsSpace) == "" then None else Some(stored));
    NormalizeWsBase(host)
  }

  /** However the configured host is decorated, the websocket base is the same. */
  lemma {:induction false} WebsocketBaseOfDecoration(h: string, d: Decoration, stored: string)
    requires Canonical(h) && IsDecoration(d) && !Misread(h, d)
    ensures WebsocketBaseUrl(Some(Decorated(h, d)), stored) == "wss://" + h
    ensures WebsocketBaseUrl(None, Decorated(h, d)) == "wss://" + h
  {
    ResolveUndoesDecoration(h, d);
    WebsocketBaseRoundTrip(h);
    WhitespaceGone(h, d);
    BodyEnds(h, d);
  }
}
