/** Which entrance a request URL names (viper/rtsp.py, url, _target_of and _url_path). */
module Routing {
  import opened Bytes

  // ---------------------------------------------------------------- Python string operations

  function StripLeft(s: string): string {
    if s != "" && s[0] == '/' then StripLeft(s[1..]) else s
  }

  function StripRight(s: string): string {
    if s != "" && s[|s| - 1] == '/' then StripRight(s[..|s| - 1]) else s
  }

  /** s.strip("/") */
  function Strip(s: string): string {
    StripRight(StripLeft(s))
  }

  /** s.split(c, 1)[0] */
  function Before(s: string, c: char): string {
    if s == "" || s[0] == c then "" else [s[0]] + Before(s[1..], c)
  }

  /** s.partition(c)[2] */
  function AfterFirst(s: string, c: char): string {
    if s == "" then "" else if s[0] == c then s[1..] else AfterFirst(s[1..], c)
  }

  /** s.split("/") */
  function Split(s: string): (parts: seq<string>)
    ensures parts != []
  {
    if s == "" then [""]
    else if s[0] == '/' then [""] + Split(s[1..])
    else
      var rest := Split(s[1..]);
      [[s[0]] + rest[0]] + rest[1..]
  }

  /** s.split("://", 1)[1] if "://" in s */
  function AfterScheme(s: string): Option<string> {
    if |s| < 3 then None else if s[..3] == "://" then Some(s[3..]) else AfterScheme(s[1..])
  }

  /** s.startswith(prefix) */
  predicate StartsWith(s: string, prefix: string) {
    prefix <= s
  }

  function Decimal(n: nat): string {
    (if n < 10 then "" else Decimal(n / 10)) + [(n % 10 + '0' as int) as char]
  }

  // ---------------------------------------------------------------- the server

  const TRACK := "trackID="

  function UrlPath(url: string): string {
    var rest := match AfterScheme(url)
      case Some(after) => "/" + AfterFirst(after, '/')
      case None => url;
    Before(Before(rest, '?'), '#')
  }

  /** Whether a path component can name an entrance. */
  predicate Names(part: string) {
    part != "" && !StartsWith(part, TRACK)
  }

  function Named(parts: seq<string>): (r: seq<string>)
    ensures |r| <= |parts|
  {
    if parts == [] then []
    else (if Names(parts[0]) then [parts[0]] else []) + Named(parts[1..])
  }

  /** The components of `s` that can name an entrance. */
  function NamedIn(s: string): seq<string> {
    Named(Split(s))
  }

  datatype Server = Server(host: string, port: nat, path: string, targets: seq<string>)
  {
    /** What the constructor establishes: at least one target, and a path with no slash at either end. */
    predicate Valid() {
      targets != [] && path == Strip(path)
    }

    function Path(target: Option<string>): string
      requires Valid()
    {
      if target.None? || target.value == targets[0] then path else path + "/" + target.value
    }

    function Authority(host: Option<string>): string {
      (if host.None? || host.value == "" then this.host else host.value) + ":" + Decimal(port)
    }

    function Url(host: Option<string>, target: Option<string>): string
      requires Valid()
    {
      "rtsp://" + Authority(host) + "/" + Path(target)
    }

    /** Whatever the request names, only a configured entrance can be served. */
    function TargetOf(url: string): (target: Option<string>)
      requires Valid()
      ensures target.Some? ==> target.value in targets
    {
      if url == "*" then Some(targets[0])
      else
        var asked := Strip(UrlPath(url));
        if asked != path && !StartsWith(asked, path + "/") then None
        else
          var rest := NamedIn(asked[|path|..]);
          if rest == [] then Some(targets[0])
          else if |rest| == 1 && rest[0] in targets then Some(rest[0])
          else None
    }
  }

  // ---------------------------------------------------------------- lemmas about the string operations

  predicate Free(s: string, c: char) {
    c !in s
  }

  /** Free of everything a URL gives a meaning to inside a path component. */
  predicate Plain(s: string) {
    Free(s, '/') && Free(s, '?') && Free(s, '#')
  }

  lemma {:induction false} BeforeFree(s: string, c: char)
    requires Free(s, c)
    ensures Before(s, c) == s
  {
    if s != "" {
      assert s[0] in s;
      forall x | x in s[1..] ensures x in s {}
      BeforeFree(s[1..], c);
    }
  }

  lemma {:induction false} AfterFree(a: string, c: char, b: string)
    requires Free(a, c)
    ensures AfterFirst(a + [c] + b, c) == b
  {
    if a == "" {
      assert (a + [c] + b)[1..] == b;
    } else {
      assert a[0] in a;
      AfterFree(a[1..], c, b);
      assert (a + [c] + b)[1..] == a[1..] + [c] + b;
    }
  }

  lemma {:induction false} SplitFree(a: string)
    requires Free(a, '/')
    ensures Split(a) == [a]
  {
    if a != "" {
      assert a[0] in a;
      SplitFree(a[1..]);
      assert [a[0]] + a[1..] == a;
    }
  }

  lemma Append<T>(x: T, a: seq<T>, b: seq<T>)
    ensures [x] + (a + b) == ([x] + a) + b
    ensures a != [] ==> (a + b)[0] == a[0] && (a + b)[1..] == a[1..] + b
  {
  }

  lemma SplitStep(s: string)
    requires s != ""
    ensures Split(s) == if s[0] == '/' then [""] + Split(s[1..])
                        else [[s[0]] + Split(s[1..])[0]] + Split(s[1..])[1..]
  {
  }

  lemma {:induction false} SplitAt(a: string, b: string)
    ensures Split(a + "/" + b) == Split(a) + Split(b)
  {
    var whole := a + "/" + b;
    SplitStep(whole);
    if a == "" {
      assert whole[1..] == b;
    } else {
      var rest, more := Split(a[1..]), Split(b);
      assert whole[0] == a[0] && whole[1..] == a[1..] + "/" + b;
      assert Split(whole[1..]) == rest + more by {
        SplitAt(a[1..], b);
      }
      SplitStep(a);
      Append("", rest, more);
      Append([a[0]] + rest[0], rest[1..], more);
    }
  }

  lemma {:induction false} NamedAppend(a: seq<string>, b: seq<string>)
    ensures Named(a + b) == Named(a) + Named(b)
  {
    if a == [] {
      assert a + b == b;
    } else {
      Append("", a, b);
      NamedAppend(a[1..], b);
      Append(a[0], Named(a[1..]), Named(b));
      assert Named(a + b) == (if Names(a[0]) then [a[0]] else []) + Named((a + b)[1..]);
    }
  }

  lemma NamedAt(a: string, b: string)
    ensures NamedIn(a + "/" + b) == NamedIn(a) + NamedIn(b)
  {
    SplitAt(a, b);
    NamedAppend(Split(a), Split(b));
  }

  lemma NamedFree(a: string)
    requires Free(a, '/')
    ensures NamedIn(a) == if Names(a) then [a] else []
  {
    SplitFree(a);
    assert [a][1..] == [];
  }

  lemma {:induction false} DecimalFree(n: nat)
    ensures Free(Decimal(n), '/')
  {
    if n >= 10 {
      DecimalFree(n / 10);
    }
  }

  /** Leading slashes go first, then trailing ones; what is left has none at either end. */
  lemma {:induction false} StripEnds(s: string)
    ensures Strip(s) == "" || (Strip(s)[0] != '/' && Strip(s)[|Strip(s)| - 1] != '/')
  {
    StripLeftEnd(s);
    StripRightEnd(StripLeft(s));
  }

  lemma {:induction false} StripLeftEnd(s: string)
    ensures StripLeft(s) == "" || StripLeft(s)[0] != '/'
  {
    if s != "" {
      StripLeftEnd(s[1..]);
    }
  }

  lemma {:induction false} StripRightEnd(s: string)
    ensures StripRight(s) <= s
    ensures StripRight(s) == "" || StripRight(s)[|StripRight(s)| - 1] != '/'
  {
    if s != "" {
      StripRightEnd(s[..|s| - 1]);
    }
  }

  predicate AllSlashes(s: string) {
    forall i :: 0 <= i < |s| ==> s[i] == '/'
  }

  /** Stripping leaves nothing of a string of slashes only. */
  lemma {:induction false} StripEmpty(s: string)
    ensures Strip(s) == "" <==> AllSlashes(s)
  {
    if s != "" && s[0] == '/' {
      StripEmpty(s[1..]);
      assert s == "/" + s[1..];
    } else if s != "" {
      StripRightKeeps(s);
    }
  }

  lemma {:induction false} StripRightKeeps(s: string)
    requires s != "" && s[0] != '/'
    ensures StripRight(s) != ""
  {
    if s[|s| - 1] == '/' {
      StripRightKeeps(s[..|s| - 1]);
    }
  }

  // ---------------------------------------------------------------- the theorem

  /** What a client may append to a URL it was given: a control track, a slash, or both. */
  datatype Suffix = Suffix(track: Option<string>, slash: bool)
  {
    predicate Valid() {
      track.Some? ==> Plain(track.value)
    }

    function Text(): string {
      (if track.Some? then "/" + TRACK + track.value else "") + (if slash then "/" else "")
    }
  }

  lemma NotYet(c: char, s: string)
    requires c != ':' && |s| >= 2
    ensures AfterScheme([c] + s) == AfterScheme(s)
  {
    assert ([c] + s)[..3][0] == c && ([c] + s)[1..] == s;
  }

  lemma SchemeOf(rest: string)
    ensures AfterScheme("rtsp://" + rest) == Some(rest)
  {
    hide *;
    var tail := "://" + rest;
    SchemeEnds(rest);
    NotYet('p', tail);
    NotYet('s', ['p'] + tail);
    NotYet('t', ['s'] + (['p'] + tail));
    NotYet('r', ['t'] + (['s'] + (['p'] + tail)));
    Spelled("://", rest);
  }

  lemma SchemeEnds(rest: string)
    ensures AfterScheme("://" + rest) == Some(rest)
  {
    assert ("://" + rest)[..3] == "://" && ("://" + rest)[3..] == rest;
  }

  lemma Spelled(end: string, rest: string)
    ensures "rtsp" + end + rest == ['r'] + (['t'] + (['s'] + (['p'] + (end + rest))))
    ensures "rtsp" + "://" == "rtsp://"
  {
    hide *;
    assert "rtsp" == ['r', 't', 's', 'p'];
  }

  lemma PathOfUrl(authority: string, tail: string)
    requires Free(authority, '/') && Free(tail, '?') && Free(tail, '#')
    ensures UrlPath("rtsp://" + authority + "/" + tail) == "/" + tail
  {
    var rest := authority + "/" + tail;
    assert "rtsp://" + authority + "/" + tail == "rtsp://" + rest;
    SchemeOf(rest);
    AfterFree(authority, '/', tail);
    BeforeFree("/" + tail, '?');
    BeforeFree("/" + tail, '#');
  }

  lemma BarePath(authority: string, bare: string, end: string)
    requires Free(authority, '/') && Free(bare, '?') && Free(bare, '#') && (end == "" || end == "/")
    ensures Strip(UrlPath("rtsp://" + authority + "/" + (bare + end))) == Strip(bare)
  {
    PathOfUrl(authority, bare + end);
    if end == "" {
      assert "/" + (bare + end) == "/" + bare;
    } else {
      assert "/" + (bare + end) == "/" + bare + "/";
    }
    StripSlashed(bare);
  }

  function TrackPart(suffix: Suffix): string {
    if suffix.track.Some? then "/" + TRACK + suffix.track.value else ""
  }

  /** The path a request for `target` arrives under, slashes stripped. */
  lemma AskedPath(s: Server, host: Option<string>, target: Option<string>, suffix: Suffix)
    requires s.Valid() && suffix.Valid() && Free(s.path, '?') && Free(s.path, '#')
    requires Free(s.host, '/') && (host.Some? ==> Free(host.value, '/'))
    requires target.Some? ==> Plain(target.value)
    ensures Strip(UrlPath(s.Url(host, target) + suffix.Text())) == Strip(s.Path(target) + TrackPart(suffix))
  {
    var authority, path, track := s.Authority(host), s.Path(target), TrackPart(suffix);
    var end := if suffix.slash then "/" else "";
    assert Free(authority, '/') by {
      DecimalFree(s.port);
    }
    assert Free(path + track, '?') && Free(path + track, '#') by {
      PlainParts(s, target, suffix);
    }
    BarePath(authority, path + track, end);
    Regroup("rtsp://" + authority + "/", path, track, end);
  }

  lemma PlainParts(s: Server, target: Option<string>, suffix: Suffix)
    requires s.Valid() && suffix.Valid() && Free(s.path, '?') && Free(s.path, '#')
    requires target.Some? ==> Plain(target.value)
    ensures Free(s.Path(target), '?') && Free(s.Path(target), '#')
    ensures Free(TrackPart(suffix), '?') && Free(TrackPart(suffix), '#')
  {
  }

  lemma Regroup(a: string, b: string, c: string, d: string)
    ensures (a + b) + (c + d) == a + ((b + c) + d)
  {
  }

  lemma StripSlashed(s: string)
    ensures Strip("/" + s) == Strip(s) && Strip("/" + s + "/") == Strip(s)
  {
    assert ("/" + s)[1..] == s;
    assert ("/" + s + "/")[1..] == s + "/";
    StripLeftAppend(s);
  }

  lemma {:induction false} StripLeftAppend(s: string)
    ensures Strip(s + "/") == Strip(s)
  {
    if s == "" {
      assert s + "/" == "/" && "/"[1..] == "";
    } else if s[0] == '/' {
      assert (s + "/")[1..] == s[1..] + "/";
      StripLeftAppend(s[1..]);
    } else {
      assert (s + "/")[..|s|] == s;
    }
  }

  /** Whether the URL handed out for a target leads back to it: only a server with an empty path, or a nameless
      second target, gets it wrong. */
  predicate Routable(s: Server, target: string, tracked: bool)
    requires s.Valid()
  {
    if s.path == "" then target == s.targets[0] && !tracked
    else target == s.targets[0] || target != ""
  }

  /** The URL advertised for a configured target, as it stands, with a slash or with a control track, names that
      target again exactly when it is routable. */
  lemma UrlLeadsBack(s: Server, host: Option<string>, target: string, suffix: Suffix)
    requires s.Valid() && suffix.Valid() && Free(s.path, '?') && Free(s.path, '#')
    requires Free(s.host, '/') && (host.Some? ==> Free(host.value, '/'))
    requires target in s.targets && Plain(target) && !StartsWith(target, TRACK)
    ensures s.TargetOf(s.Url(host, Some(target)) + suffix.Text()) == Some(target)
            <==> Routable(s, target, suffix.track.Some?)
  {
    var inner := if target == s.targets[0] then "" else "/" + target;
    var bare := inner + TrackPart(suffix);
    var url := s.Url(host, Some(target)) + suffix.Text();
    assert url != "*" by {
      assert url[0] == 'r';
    }
    assert Strip(UrlPath(url)) == Strip(s.path + bare) by {
      AskedPath(s, host, Some(target), suffix);
      PathWithTrack(s, target, inner, TrackPart(suffix));
    }
    Answer(s, url, target, inner, suffix, Strip(s.path + bare));
  }

  lemma PathWithTrack(s: Server, target: string, inner: string, track: string)
    requires s.Valid() && inner == if target == s.targets[0] then "" else "/" + target
    ensures s.Path(Some(target)) + track == s.path + (inner + track)
  {
    if inner != "" {
      assert s.path + "/" + target == s.path + inner;
    }
    assert (s.path + inner) + track == s.path + (inner + track);
  }

  lemma Answer(s: Server, url: string, target: string, inner: string, suffix: Suffix, asked: string)
    requires s.Valid() && suffix.Valid() && url != "*"
    requires target in s.targets && Plain(target) && !StartsWith(target, TRACK)
    requires inner == if target == s.targets[0] then "" else "/" + target
    requires asked == Strip(UrlPath(url)) && asked == Strip(s.path + (inner + TrackPart(suffix)))
    ensures s.TargetOf(url) == Some(target) <==> Routable(s, target, suffix.track.Some?)
  {
    if s.path == "" {
      EmptyPath(target, inner, suffix, asked);
      NamedFree("");
    } else {
      NamedPath(s.path, target, inner, suffix, asked);
    }
  }

  lemma EmptyPath(target: string, inner: string, suffix: Suffix, asked: string)
    requires suffix.Valid() && Plain(target)
    requires inner == "" || inner == "/" + target
    requires asked == Strip("" + (inner + TrackPart(suffix)))
    ensures asked == "" <==> suffix.track.None? && (inner == "" || target == "")
    ensures asked != "" ==> asked[0] != '/'
  {
    var track := TrackPart(suffix);
    assert "" + (inner + track) == inner + track;
    StripEnds(inner + track);
    StripEmpty(inner + track);
    if suffix.track.Some? {
      assert (inner + track)[|inner| + 1] == track[1] == 't';
    } else if inner != "" && target != "" {
      assert (inner + track)[1] == target[0];
      assert target[0] in target;
    }
  }

  lemma NamedPath(path: string, target: string, inner: string, suffix: Suffix, asked: string)
    requires path != "" && Strip(path) == path && suffix.Valid()
    requires Plain(target) && !StartsWith(target, TRACK)
    requires inner == "" || inner == "/" + target
    requires asked == Strip(path + (inner + TrackPart(suffix)))
    ensures asked == path || StartsWith(asked, path + "/")
    ensures |path| <= |asked| && NamedIn(asked[|path|..]) == if inner == "" || target == "" then [] else [target]
  {
    StripEnds(path);
    var rest := inner + TrackPart(suffix);
    if suffix.track.Some? {
      TrackedPath(path, target, inner, suffix.track.value, rest, asked);
    } else if inner == "" || target == "" {
      assert path + rest == path || path + rest == path + "/";
      StripLeftAppend(path);
      assert asked[|path|..] == "";
      NamedFree("");
    } else {
      assert rest == "/" + target;
      PlainEnd(path, target);
      Prefixed(path, rest);
      TargetNames(target);
    }
  }

  lemma TrackedPath(path: string, target: string, inner: string, value: string, rest: string, asked: string)
    requires path != "" && path[0] != '/' && Plain(value)
    requires Plain(target) && !StartsWith(target, TRACK)
    requires inner == "" || inner == "/" + target
    requires rest == inner + ("/" + TRACK + value) && asked == Strip(path + rest)
    ensures StartsWith(asked, path + "/")
    ensures NamedIn(asked[|path|..]) == if inner == "" || target == "" then [] else [target]
  {
    hide *;
    TrackedAsked(path, inner, value, rest);
    Prefixed(path, rest);
    TrackIsNoName(value);
    TrackedNames(target, inner, TRACK + value);
  }

  lemma TrackedAsked(path: string, inner: string, value: string, rest: string)
    requires path != "" && path[0] != '/' && Plain(value) && (inner == "" || inner[0] == '/')
    requires rest == inner + ("/" + TRACK + value)
    ensures Strip(path + rest) == path + rest && rest != "" && rest[0] == '/'
    ensures rest == inner + "/" + (TRACK + value)
  {
    hide Strip, Plain;
    TrackedEnd(path + inner, value);
    assert path + rest == path + inner + ("/" + TRACK + value);
  }

  lemma TrackIsNoName(value: string)
    requires Plain(value)
    ensures Free(TRACK + value, '/') && !Names(TRACK + value)
  {
  }

  lemma TargetNames(target: string)
    requires Plain(target) && !StartsWith(target, TRACK)
    ensures NamedIn("/" + target) == if target == "" then [] else [target]
  {
    assert "" + "/" + target == "/" + target;
    NamedAt("", target);
    NamedFree("");
    NamedFree(target);
  }

  /** A control track at the end adds no name to a path. */
  lemma TrackedNames(target: string, inner: string, part: string)
    requires Plain(target) && !StartsWith(target, TRACK) && Free(part, '/') && !Names(part)
    requires inner == "" || inner == "/" + target
    ensures NamedIn(inner + "/" + part) == if inner == "" || target == "" then [] else [target]
  {
    NamedAt(inner, part);
    NamedFree(part);
    NamedFree("");
    TargetNames(target);
  }

  lemma Prefixed(path: string, rest: string)
    requires rest != "" && rest[0] == '/'
    ensures StartsWith(path + rest, path + "/") && (path + rest)[|path|..] == rest
  {
  }

  lemma PlainEnd(path: string, target: string)
    requires path != "" && path[0] != '/' && target != "" && Plain(target)
    ensures Strip(path + ("/" + target)) == path + ("/" + target)
  {
    assert target[|target| - 1] in target;
  }

  lemma TrackedEnd(front: string, value: string)
    requires front != "" && front[0] != '/' && Plain(value)
    ensures Strip(front + ("/" + TRACK + value)) == front + ("/" + TRACK + value)
  {
    var whole := front + ("/" + TRACK + value);
    assert whole[0] == front[0];
    assert value != "" ==> value[|value| - 1] in value;
    assert whole[|whole| - 1] == if value == "" then '=' else value[|value| - 1];
  }

  // ---------------------------------------------------------------- who is not served

  /** A request for a name that is no configured entrance, in the form its URL would have, is refused: it is not served
      the first entrance instead. */
  lemma UnknownNameIsRefused(s: Server, host: Option<string>, name: string, suffix: Suffix)
    requires s.Valid() && s.path != "" && suffix.Valid() && Free(s.path, '?') && Free(s.path, '#')
    requires Free(s.host, '/') && (host.Some? ==> Free(host.value, '/'))
    requires name !in s.targets && name != "" && Plain(name) && !StartsWith(name, TRACK)
    ensures s.TargetOf("rtsp://" + s.Authority(host) + "/" + (s.path + "/" + name) + suffix.Text()) == None
  {
    hide *;
    var url := s.Url(host, Some(name)) + suffix.Text();
    NamedUrl(s, host, name, suffix);
    AskedPath(s, host, Some(name), suffix);
    NamedPath(s.path, name, "/" + name, suffix, Strip(UrlPath(url)));
    Refuses(s, url, name);
  }

  lemma NamedUrl(s: Server, host: Option<string>, name: string, suffix: Suffix)
    requires s.Valid() && name !in s.targets
    ensures s.Url(host, Some(name)) == "rtsp://" + s.Authority(host) + "/" + (s.path + "/" + name)
    ensures s.Path(Some(name)) + TrackPart(suffix) == s.path + ("/" + name + TrackPart(suffix))
    ensures Strip(s.path) == s.path && |s.Url(host, Some(name)) + suffix.Text()| > 1
  {
    hide Strip, Decimal;
    assert |"rtsp://"| == 7;
    assert (s.path + "/" + name) + TrackPart(suffix) == s.path + ("/" + name + TrackPart(suffix));
  }

  lemma Refuses(s: Server, url: string, name: string)
    requires s.Valid() && |url| > 1 && name !in s.targets && |s.path| <= |Strip(UrlPath(url))|
    requires NamedIn(Strip(UrlPath(url))[|s.path|..]) == [name]
    ensures s.TargetOf(url) == None
  {
    hide Strip, UrlPath, NamedIn;
  }

  /** And so is one outside the served path, whatever it names. */
  lemma OtherPathIsRefused(s: Server, host: Option<string>, other: string)
    requires s.Valid() && Free(s.host, '/') && (host.Some? ==> Free(host.value, '/'))
    requires Free(other, '?') && Free(other, '#') && other == Strip(other)
    requires s.path != "" && other != s.path && !StartsWith(other, s.path + "/")
    ensures s.TargetOf("rtsp://" + s.Authority(host) + "/" + other) == None
  {
    DecimalFree(s.port);
    var url := "rtsp://" + s.Authority(host) + "/" + other;
    PathOfUrl(s.Authority(host), other);
    StripSlashed(other);
    assert url != "*" by {
      assert url[0] == 'r';
    }
  }
}
