/** Recognising checkout steps by their `uses` value (internal/south/payload.go). */
module Checkout {

  /** White space as strings.TrimSpace understands it. */
  predicate IsBlank(c: char) {
    || '\t' <= c <= '\r' || c == ' ' || c == '\U{85}' || c == '\U{A0}' || c == '\U{1680}'
    || '\U{2000}' <= c <= '\U{200A}' || c == '\U{2028}' || c == '\U{2029}' || c == '\U{202F}'
    || c == '\U{205F}' || c == '\U{3000}'
  }

  function TrimLeft(s: string): string {
    if s != "" && IsBlank(s[0]) then TrimLeft(s[1..]) else s
  }

  function TrimRight(s: string): string {
    if s != "" && IsBlank(s[|s| - 1]) then TrimRight(s[..|s| - 1]) else s
  }

  function TrimSpace(s: string): string {
    TrimRight(TrimLeft(s))
  }

  /** Index of the first `c`, or |s|. */
  function IndexOf(s: string, c: char): (i: nat)
    ensures i <= |s| && c !in s[..i] && (i < |s| ==> s[i] == c)
  {
    if s == "" || s[0] == c then 0 else 1 + IndexOf(s[1..], c)
  }

  function Split(s: string, c: char): (parts: seq<string>)
    ensures |parts| > 0
    decreases |s|
  {
    var i := IndexOf(s, c);
    if i == |s| then [s] else [s[..i]] + Split(s[i + 1..], c)
  }

  /** What follows "scheme://host/"; None when a scheme is there but no path. */
  datatype Rest = NoPath | Path(path: string)

  function StripHost(u: string): Rest {
    if "https://" <= u then AfterHost(u[8..])
    else if "http://" <= u then AfterHost(u[7..])
    else Path(u)
  }

  function AfterHost(after: string): Rest {
    var i := IndexOf(after, '/');
    if i == |after| then NoPath else Path(after[i + 1..])
  }

  predicate IsCheckoutPath(path: string) {
    var segs := Split(path, '/');
    |segs| >= 2 &&
    (|| (segs[0] == "actions" && segs[1] == "checkout")
     || (segs[|segs| - 2] == "actions" && segs[|segs| - 1] == "checkout"))
  }

  predicate IsCheckoutUses(uses: string) {
    var u := TrimSpace(uses);
    if "docker://" <= u || "./" <= u || "../" <= u then false else
    match StripHost(u)
    case NoPath => false
    case Path(rest) => IsCheckoutPath(rest[..IndexOf(rest, '@')])
  }

  lemma {:induction false} IndexOfExact(a: string, c: char, b: string)
    requires c !in a
    ensures IndexOf(a + [c] + b, c) == |a|
    decreases |a|
  {
    if a != "" {
      assert (a + [c] + b)[1..] == a[1..] + [c] + b;
      IndexOfExact(a[1..], c, b);
    }
  }

  lemma AfterHostOf(host: string, tail: string)
    requires '/' !in host
    ensures AfterHost(host + ['/'] + tail) == Path(tail)
  {
    IndexOfExact(host, '/', tail);
    assert (host + ['/'] + tail)[|host| + 1..] == tail;
  }

  lemma StripHostOf(secure: bool, host: string, tail: string)
    requires '/' !in host
    ensures StripHost((if secure then "https://" else "http://") + (host + ['/'] + tail)) == Path(tail)
  {
    AfterHostOf(host, tail);
    var after := host + ['/'] + tail;
    if secure {
      assert ("https://" + after)[8..] == after;
    } else {
      assert ("http://" + after)[7..] == after && ("http://" + after)[4] == ':';
    }
  }

  predicate AllBlank(s: string) {
    forall i :: 0 <= i < |s| ==> IsBlank(s[i])
  }

  /** Neither end is white space. */
  predicate Trimmed(u: string) {
    u != "" ==> !IsBlank(u[0]) && !IsBlank(u[|u| - 1])
  }

  /** The white space TrimSpace knows, character by character. */
  lemma BlankCharacters(c: char)
    ensures IsBlank(c) <==>
            c in "\t\n\U{0B}\U{0C}\r \U{85}\U{A0}\U{1680}\U{2000}\U{2001}\U{2002}\U{2003}\U{2004}\U{2005}"
              || c in "\U{2006}\U{2007}\U{2008}\U{2009}\U{200A}\U{2028}\U{2029}\U{202F}\U{205F}\U{3000}"
  {
  }

  lemma {:induction false} TrimLeftOf(blank: string, u: string)
    requires AllBlank(blank) && (u != "" ==> !IsBlank(u[0]))
    ensures TrimLeft(blank + u) == u
    decreases |blank|
  {
    if blank == "" {
      assert blank + u == u;
    } else {
      assert (blank + u)[1..] == blank[1..] + u;
      TrimLeftOf(blank[1..], u);
    }
  }

  lemma {:induction false} TrimRightOf(u: string, blank: string)
    requires AllBlank(blank) && (u != "" ==> !IsBlank(u[|u| - 1]))
    ensures TrimRight(u + blank) == u
    decreases |blank|
  {
    if blank == "" {
      assert u + blank == u;
    } else {
      assert (u + blank)[..|u + blank| - 1] == u + blank[..|blank| - 1];
      TrimRightOf(u, blank[..|blank| - 1]);
    }
  }

  /** White space around the value is cut off, and nothing else. */
  lemma TrimSpaceOf(before: string, u: string, after: string)
    requires AllBlank(before) && AllBlank(after) && Trimmed(u)
    ensures TrimSpace(before + u + after) == u
  {
    if u == "" {
      TrimLeftOf(before + after, "");
      assert before + u + after == before + after + "";
    } else {
      assert before + u + after == before + (u + after);
      TrimLeftOf(before, u + after);
      TrimRightOf(u, after);
    }
  }

  lemma TrimNothing(u: string)
    requires Trimmed(u)
    ensures TrimSpace(u) == u
  {
    TrimSpaceOf("", u, "");
    assert "" + u + "" == u;
  }

  /** Neither a Docker image nor a local action. */
  predicate IsRemote(u: string) {
    !("docker://" <= u) && !("./" <= u) && !("../" <= u)
  }

  lemma UrlsAreRemote(u: string)
    requires u != "" && u[0] == 'h'
    ensures IsRemote(u)
  {
    assert "docker://"[0] == 'd' && "./"[0] == '.' && "../"[0] == '.';
  }

  lemma {:induction false} UsesOfPath(u: string, path: string, ref: string)
    requires Trimmed(u) && IsRemote(u) && StripHost(u) == Path(path + ['@'] + ref) && '@' !in path
    ensures IsCheckoutUses(u) <==> IsCheckoutPath(path)
  {
    TrimNothing(u);
    IndexOfExact(path, '@', ref);
    assert (path + ['@'] + ref)[..|path|] == path;
  }

  /** The scheme, host and ref of a remote action never matter. */
  lemma {:induction false} HostAndRefIgnored(secure: bool, host: string, path: string, ref: string)
    requires '/' !in host && '@' !in path && ref != "" && !IsBlank(ref[|ref| - 1])
    ensures IsCheckoutUses((if secure then "https://" else "http://") + (host + ['/'] + (path + ['@'] + ref)))
       <==> IsCheckoutPath(path)
  {
    var tail := path + ['@'] + ref;
    var u := (if secure then "https://" else "http://") + (host + ['/'] + tail);
    StripHostOf(secure, host, tail);
    assert u[|u| - 1] == ref[|ref| - 1];
    UrlsAreRemote(u);
    UsesOfPath(u, path, ref);
  }

  lemma {:induction false} IndexOfAbsent(s: string, c: char)
    requires c !in s
    ensures IndexOf(s, c) == |s|
    decreases |s|
  {
    if s != "" {
      IndexOfAbsent(s[1..], c);
    }
  }

  lemma {:induction false} UsesOfBarePath(u: string, path: string)
    requires Trimmed(u) && IsRemote(u) && StripHost(u) == Path(path) && '@' !in path
    ensures IsCheckoutUses(u) <==> IsCheckoutPath(path)
  {
    TrimNothing(u);
    IndexOfAbsent(path, '@');
    assert path[..|path|] == path;
  }

  /** The same without a ref. */
  lemma {:induction false} HostIgnored(secure: bool, host: string, path: string)
    requires '/' !in host && '@' !in path && path != "" && !IsBlank(path[|path| - 1])
    ensures IsCheckoutUses((if secure then "https://" else "http://") + (host + ['/'] + path)) <==> IsCheckoutPath(path)
  {
    var u := (if secure then "https://" else "http://") + (host + ['/'] + path);
    StripHostOf(secure, host, path);
    assert u[|u| - 1] == path[|path| - 1];
    UrlsAreRemote(u);
    UsesOfBarePath(u, path);
  }

  predicate Schemeless(u: string) {
    !("http://" <= u) && !("https://" <= u)
  }

  lemma PrefixBeforeRef(p: string, path: string, ref: string)
    requires '@' !in p
    ensures p <= path + ['@'] + ref <==> p <= path
  {
    var u := path + ['@'] + ref;
    assert u[|path|] == '@' && (|path| < |p| ==> p[|path|] != '@');
  }

  /** The plain spelling, without scheme and host: what comes before the ref decides. */
  lemma PlainUses(path: string, ref: string)
    requires '@' !in path && Schemeless(path) && IsRemote(path) && Trimmed(path + ['@'] + ref)
    ensures IsCheckoutUses(path + ['@'] + ref) <==> IsCheckoutPath(path)
  {
    PrefixBeforeRef("http://", path, ref);
    PrefixBeforeRef("https://", path, ref);
    PrefixBeforeRef("docker://", path, ref);
    PrefixBeforeRef("./", path, ref);
    PrefixBeforeRef("../", path, ref);
    UsesOfPath(path + ['@'] + ref, path, ref);
  }

  lemma PlainUsesBare(path: string)
    requires '@' !in path && Schemeless(path) && IsRemote(path) && Trimmed(path)
    ensures IsCheckoutUses(path) <==> IsCheckoutPath(path)
  {
    UsesOfBarePath(path, path);
  }

  lemma {:induction false} TrimRightKeeps(p: string, rest: string)
    requires p != "" && !IsBlank(p[|p| - 1])
    ensures p <= TrimRight(p + rest)
    decreases |rest|
  {
    if rest == "" {
      assert p + rest == p;
    } else {
      assert (p + rest)[..|p + rest| - 1] == p + rest[..|rest| - 1];
      TrimRightKeeps(p, rest[..|rest| - 1]);
    }
  }

  /** Docker images and local actions are refused, whatever else the value says. */
  lemma NotRemoteRefused(before: string, p: string, rest: string)
    requires AllBlank(before) && (p == "docker://" || p == "./" || p == "../")
    ensures !IsCheckoutUses(before + p + rest)
  {
    assert before + p + rest == before + (p + rest);
    TrimLeftOf(before, p + rest);
    TrimRightKeeps(p, rest);
  }

  /** So is a URL that ends with its host. */
  lemma NoPathRefused(secure: bool, host: string)
    requires '/' !in host && host != "" && !IsBlank(host[|host| - 1])
    ensures !IsCheckoutUses((if secure then "https://" else "http://") + host)
  {
    var u := (if secure then "https://" else "http://") + host;
    TrimNothing(u);
    IndexOfAbsent(host, '/');
    if secure {
      assert u[8..] == host;
    } else {
      assert u[7..] == host && u[4] == ':';
    }
  }

  /** White space around the value does not matter. */
  lemma BlanksIgnored(before: string, u: string, after: string)
    requires AllBlank(before) && AllBlank(after) && Trimmed(u)
    ensures IsCheckoutUses(before + u + after) <==> IsCheckoutUses(u)
  {
    TrimSpaceOf(before, u, after);
    TrimNothing(u);
  }

  // ---- which paths are checkout actions ----

  predicate EndsWith(s: string, end: string) {
    |end| <= |s| && s[|s| - |end|..] == end
  }

  lemma SplitOnce(a: string, rest: string)
    requires '/' !in a
    ensures Split(a + ['/'] + rest, '/') == [a] + Split(rest, '/')
  {
    IndexOfExact(a, '/', rest);
    var s := a + ['/'] + rest;
    assert s[..|a|] == a && s[|a| + 1..] == rest;
  }

  lemma SplitNone(s: string)
    requires '/' !in s
    ensures Split(s, '/') == [s]
  {
    IndexOfAbsent(s, '/');
  }

  /** A path of two segments must be exactly actions/checkout. */
  lemma TwoSegments(a: string, b: string)
    requires '/' !in a && '/' !in b
    ensures IsCheckoutPath(a + ['/'] + b) <==> a == "actions" && b == "checkout"
  {
    SplitOnce(a, b);
    SplitNone(b);
  }

  /** Cuts the first segment off. */
  lemma FirstSegment(s: string) returns (a: string, rest: string)
    requires '/' in s
    ensures '/' !in a && s == a + ['/'] + rest && Split(s, '/') == [a] + Split(rest, '/')
  {
    var i := IndexOf(s, '/');
    assert s[..|s|] == s;
    a, rest := s[..i], s[i + 1..];
    SplitOnce(a, rest);
  }

  lemma OneSlash(a: string, b: string)
    requires '/' !in a && '/' !in b
    ensures a + ['/'] + b == "actions/checkout" <==> a == "actions" && b == "checkout"
    ensures !("actions/checkout/" <= a + ['/'] + b)
  {
    var s := a + ['/'] + b;
    var p, q := "actions/checkout", "actions/checkout/";
    assert p[7] == '/' && q[7] == '/' && q[16] == '/';
    assert p[..7] == "actions" && p[8..] == "checkout";
    if s == p {
      assert s[|a|] == '/' && |a| == 7;
      assert s[..|a|] == a && s[|a| + 1..] == b;
    }
    assert forall k :: 0 <= k < |s| && s[k] == '/' ==> k == |a|;
  }

  lemma TwoSlashes(a: string, b: string, c: string)
    requires '/' !in a && '/' !in b
    ensures a + ['/'] + (b + ['/'] + c) != "actions/checkout"
    ensures "actions/checkout/" <= a + ['/'] + (b + ['/'] + c) <==> a == "actions" && b == "checkout"
  {
    var s := a + ['/'] + (b + ['/'] + c);
    var p, q := "actions/checkout", "actions/checkout/";
    assert q == "actions" + ['/'] + ("checkout" + ['/']);
    assert s[|a|] == '/' && s[|a| + 1 + |b|] == '/';
    if q <= s {
      assert s[7] == '/' && s[16] == '/' && |a| == 7;
      assert s[8..16] == "checkout" && s[..7] == "actions";
      assert |b| == 8;
      assert s[..|a|] == a && s[|a| + 1..|a| + 1 + |b|] == b;
    }
    if a == "actions" && b == "checkout" {
      assert s == q + c;
    }
  }

  lemma StartsIff(path: string)
    ensures |Split(path, '/')| >= 2 && Split(path, '/')[0] == "actions" && Split(path, '/')[1] == "checkout" <==>
            path == "actions/checkout" || "actions/checkout/" <= path
  {
    if '/' !in path {
      SplitNone(path);
      assert "actions/checkout"[7] == '/' && "actions/checkout/"[7] == '/';
    } else {
      var a, rest := FirstSegment(path);
      if '/' !in rest {
        SplitNone(rest);
        OneSlash(a, rest);
      } else {
        var b, more := FirstSegment(rest);
        TwoSlashes(a, b, more);
      }
    }
  }

  lemma EndOne(a: string, b: string)
    requires '/' !in a && '/' !in b
    ensures !EndsWith(a + ['/'] + b, "/actions/checkout")
  {
    var s, e := a + ['/'] + b, "/actions/checkout";
    assert e[0] == '/' && e[8] == '/';
    assert forall k :: 0 <= k < |s| && s[k] == '/' ==> k == |a|;
    if |e| <= |s| {
      var n := |s| - |e|;
      assert s[n..][0] == s[n] && s[n..][8] == s[n + 8];
    }
  }

  lemma SuffixOf(s: string, front: string, back: string, end: string)
    requires s == front + back
    ensures |end| <= |back| ==> (EndsWith(s, end) <==> EndsWith(back, end))
    ensures |back| < |end| && EndsWith(s, end) ==> back == end[|end| - |back|..]
  {
    if |end| <= |back| {
      assert s[|s| - |end|..] == back[|back| - |end|..];
    } else if EndsWith(s, end) {
      assert s[|s| - |end|..][|end| - |back|..] == back;
    }
  }

  /** A suffix with two slashes that starts within the first segment starts at its end. */
  lemma ShortRest(a: string, rest: string)
    requires '/' !in a && '/' in rest && |rest| < 16
    ensures !EndsWith(a + ['/'] + rest, "/actions/checkout")
  {
    var s, e := a + ['/'] + rest, "/actions/checkout";
    var i :| 0 <= i < |rest| && rest[i] == '/';
    assert forall k :: 0 <= k < 17 && e[k] == '/' ==> k == 0 || k == 8;
    SuffixOf(s, a, ['/'] + rest, e);
    assert (['/'] + rest)[0] == '/' && (['/'] + rest)[1 + i] == '/';
  }

  lemma LongRest(a: string, rest: string, p: string, e: string)
    requires e == ['/'] + p && |rest| >= |p|
    ensures EndsWith(a + ['/'] + rest, e) <==> rest == p || EndsWith(rest, e)
  {
    var s := a + ['/'] + rest;
    if |rest| == |p| {
      SuffixOf(s, a, ['/'] + rest, e);
      assert rest == (['/'] + rest)[1..] && p == e[1..];
    } else {
      SuffixOf(s, a + ['/'], rest, e);
    }
  }

  lemma EndMore(a: string, rest: string)
    requires '/' !in a && '/' in rest
    ensures a + ['/'] + rest != "actions/checkout"
    ensures EndsWith(a + ['/'] + rest, "/actions/checkout") <==>
            rest == "actions/checkout" || EndsWith(rest, "/actions/checkout")
  {
    var b, more := FirstSegment(rest);
    TwoSlashes(a, b, more);
    if |rest| < 16 {
      ShortRest(a, rest);
    } else {
      LongRest(a, rest, "actions/checkout", "/actions/checkout");
    }
  }

  /** The last two segments. */
  predicate EndsInCheckout(segs: seq<string>) {
    |segs| >= 2 && segs[|segs| - 2] == "actions" && segs[|segs| - 1] == "checkout"
  }

  lemma EndsIffNone(path: string)
    requires '/' !in path
    ensures !EndsInCheckout(Split(path, '/')) && path != "actions/checkout" && !EndsWith(path, "/actions/checkout")
  {
    var e := "/actions/checkout";
    assert e[0] == '/' && "actions/checkout"[7] == '/';
    SplitNone(path);
    assert |e| <= |path| ==> path[|path| - |e|..][0] == path[|path| - |e|];
  }

  lemma EndsIffMore(a: string, segs: seq<string>)
    ensures |segs| >= 2 ==> (EndsInCheckout([a] + segs) <==> EndsInCheckout(segs))
    ensures |segs| == 1 ==> (EndsInCheckout([a] + segs) <==> a == "actions" && segs[0] == "checkout")
  {
  }

  lemma {:induction false} EndsIff(path: string)
    ensures EndsInCheckout(Split(path, '/')) <==> path == "actions/checkout" || EndsWith(path, "/actions/checkout")
    decreases |path|
  {
    if '/' !in path {
      EndsIffNone(path);
    } else {
      var a, rest := FirstSegment(path);
      EndsIffMore(a, Split(rest, '/'));
      if '/' !in rest {
        SplitNone(rest);
        OneSlash(a, rest);
        EndOne(a, rest);
      } else {
        var b, more := FirstSegment(rest);
        EndsIff(rest);
        EndMore(a, rest);
      }
    }
  }

  /** A checkout action is actions/checkout, anything below it, or that behind a bare host. */
  lemma CheckoutPathIff(path: string)
    ensures IsCheckoutPath(path) <==>
            path == "actions/checkout" || "actions/checkout/" <= path || EndsWith(path, "/actions/checkout")
  {
    StartsIff(path);
    EndsIff(path);
  }
}
