/** Replacing server-URL expressions in one scalar (internal/south/payload.go). */
module Normalise {
  import opened Wrappers
  import opened Expressions

  /** What the replacement depends on. */
  datatype Site = Site(url: string, repository: string)

  /** The one expression that stays: repository_url without a known repository. */
  predicate Exempt(t: Site, k: Key) {
    k.target.Repository? && t.repository == ""
  }

  function Replacement(t: Site, expr: string, k: Key): string {
    match k.target
    case Server => t.url
    case Api => t.url + "/api/v1"
    case Repository => if t.repository == "" then expr else t.url + "/" + t.repository
  }

  /** Leftmost non-overlapping replacement. */
  function ReplaceAll(keys: seq<Key>, t: Site, s: string): string
    decreases |s|
  {
    if s == "" then ""
    else match Match(keys, s)
      case Some(f) => Replacement(t, s[..f.len], f.key) + ReplaceAll(keys, t, s[f.len..])
      case None => [s[0]] + ReplaceAll(keys, t, s[1..])
  }

  predicate Contains(s: string, part: string) {
    exists i :: 0 <= i <= |s| && part <= s[i..]
  }

  lemma ContainsIff(s: string, part: string)
    ensures Contains(s, part) <==> exists a, b :: s == a + part + b
  {
    if Contains(s, part) {
      var i :| 0 <= i <= |s| && part <= s[i..];
      assert s == s[..i] + part + s[i + |part|..];
    }
    if a, b :| s == a + part + b {
      assert part <= s[|a|..];
    }
  }

  /** The closure normalizeServerURLs applies to each scalar value. */
  function RewriteScalar(t: Site, v: string): string {
    if !Contains(v, "${{") then v else ReplaceAll(KEYS, t, v)
  }

  // ---- which targets are harmless ----

  predicate NoBraces(s: string) {
    forall i :: 0 <= i < |s| ==> s[i] != '$' && s[i] != '{' && s[i] != '}'
  }

  /** `part` lies within `text` and white space around it. */
  ghost predicate Within(part: string, text: string) {
    exists before, after, a, b :: AllSpace(before) && AllSpace(after)
      && before + text + after == a + part + b
  }

  /** A scalar could place the URL where a replaceable expression expects its key. */
  ghost predicate Embeddable(keys: seq<Key>, t: Site) {
    exists k :: k in keys && !Exempt(t, k) && Within(t.url, k.text)
  }

  /** `s` holds no expression that should have been replaced. */
  ghost predicate Clean(keys: seq<Key>, t: Site, s: string) {
    forall i :: 0 <= i < |s| && Match(keys, s[i..]).Some? ==> Exempt(t, Match(keys, s[i..]).value.key)
  }

  /** No expression that should have been replaced starts among the first `n` characters. */
  ghost predicate HeadClean(keys: seq<Key>, t: Site, out: string, n: nat)
    requires n <= |out|
  {
    forall i :: 0 <= i < n && Match(keys, out[i..]).Some? ==> Exempt(t, Match(keys, out[i..]).value.key)
  }

  // ---- completeness ----

  /** Apart from its first character an expression consists of the key, white space, and
      braces; it ends with a brace. */
  lemma BracedShape(m: string, text: string)
    requires Braced(m, text) && NoBraces(text)
    ensures |m| >= 5 && m[0] == '$' && m[|m| - 1] == '}'
    ensures forall i :: 0 < i < |m| ==> m[i] != '$'
    ensures forall i :: 0 < i < |m| && m[i] == '{' ==> i < 3
    ensures forall i :: 0 <= i < |m| && m[i] == '}' ==> i >= |m| - 2
    ensures m[1] == m[2] == '{' && m[|m| - 2] == '}'
  {
  }

  /** A brace-free stretch inside an expression lies within its key and white space. */
  lemma InnerStretch(m: string, text: string, i: nat, part: string)
    requires Braced(m, text) && NoBraces(text) && NoBraces(part)
    requires 0 < i && i + |part| < |m| && m[i..i + |part|] == part
    requires 3 <= i && i + |part| <= |m| - 2
    ensures Within(part, text)
  {
    var before, after :| AllSpace(before) && AllSpace(after) && m == "${{" + before + text + after + "}}";
    var inner := before + text + after;
    assert m[3..|m| - 2] == inner;
    assert inner == inner[..i - 3] + part + inner[i - 3 + |part|..];
  }

  predicate Harmless(t: Site) {
    NoBraces(t.url) && NoBraces(t.repository)
  }

  lemma KeyHasNoBraces(keys: seq<Key>, k: Key)
    requires GoodKeys(keys) && k in keys
    ensures NoBraces(k.text) && '/' !in k.text && ':' !in k.text
  {
    forall i | 0 <= i < |k.text| ensures IsKeyChar(k.text[i]) {}
  }

  lemma BracedNoSlash(m: string, text: string, c: char)
    requires Braced(m, text) && c !in text && (c == '/' || c == ':')
    ensures c !in m
  {
  }

  lemma WithinFrom(part: string, text: string, before: string, after: string, a: string, b: string)
    requires AllSpace(before) && AllSpace(after) && before + text + after == a + part + b
    ensures Within(part, text)
  {
  }

  lemma WithinEmpty(text: string)
    ensures Within("", text)
  {
    WithinFrom("", text, "", "", text, "");
  }

  lemma UrlBlocks(t: Site, m: string, k: Key, j: nat, rest: string)
    requires NoBraces(t.url) && NoBraces(k.text) && !Within(t.url, k.text)
    requires Braced(m, k.text) && 0 < j && j + |t.url| < |m|
    ensures !(m[j..] <= t.url + rest)
  {
    BracedShape(m, k.text);
    if t.url == "" {
      WithinEmpty(k.text);
    } else if j < 3 || j == |m| - 1 {
      assert m[j..][0] != t.url[0] == (t.url + rest)[0];
    } else if j + |t.url| > |m| - 2 {
      var d := |m| - 2 - j;
      assert m[j..][d] != t.url[d] == (t.url + rest)[d];
    } else if m[j..j + |t.url|] == t.url {
      InnerStretch(m, k.text, j, t.url);
    } else {
      assert m[j..][..|t.url|] == m[j..j + |t.url|];
      assert (t.url + rest)[..|t.url|] == t.url;
    }
  }

  /** An expression that survives cannot run into a replacement: from its second character
      on it never continues with one. */
  lemma ReplacementBlocks(keys: seq<Key>, t: Site, expr: string, e: Key, m: string, k: Key, j: nat, rest: string)
    requires GoodKeys(keys) && e in keys && k in keys && Harmless(t) && !Within(t.url, k.text)
    requires Braced(m, k.text) && 0 < j < |m|
    requires expr != "" && expr[0] == '$'
    ensures !(m[j..] <= Replacement(t, expr, e) + rest)
  {
    KeyHasNoBraces(keys, k);
    BracedShape(m, k.text);
    BracedNoSlash(m, k.text, '/');
    var r := Replacement(t, expr, e);
    var p := m[j..];
    var out := r + rest;
    if Exempt(t, e) {
      assert out[0] == '$' && p[0] == m[j];
    } else if |r| >= |p| {
      assert out[|p| - 1] == r[|p| - 1] && p[|p| - 1] == m[|m| - 1];
    } else if !e.target.Server? {
      assert r[|t.url|] == '/';
      assert out[|t.url|] == '/' && p[|t.url|] == m[j + |t.url|];
    } else {
      UrlBlocks(t, m, k, j, rest);
    }
  }

  /** One character further. */
  lemma LiteralStep(s: string, m: string, j: nat)
    requires j < |m| && s != "" && m[j] == s[0] && m[j + 1..] <= s[1..]
    ensures m[j..] <= s
  {
    assert m[j..] == [m[j]] + m[j + 1..] && s == [s[0]] + s[1..];
  }

  lemma CopiedTail(s: string, rest: string, m: string, j: nat)
    requires j < |m| && s != "" && m[j..] <= [s[0]] + rest
    ensures m[j] == s[0] && m[j + 1..] <= rest
  {
    assert m[j..][0] == s[0] && m[j..][1..] == m[j + 1..];
    assert ([s[0]] + rest)[1..] == rest;
  }

  /** What looks like the tail of an expression after replacement was there before. */
  lemma {:induction false} Literal(keys: seq<Key>, t: Site, s: string, m: string, k: Key, j: nat)
    requires GoodKeys(keys) && k in keys && Harmless(t) && !Within(t.url, k.text)
    requires Braced(m, k.text) && 0 < j <= |m| && m[j..] <= ReplaceAll(keys, t, s)
    ensures m[j..] <= s
    decreases |m| - j
  {
    if j < |m| && s != "" {
      match Match(keys, s)
      case Some(f) => ReplacementBlocks(keys, t, s[..f.len], f.key, m, k, j, ReplaceAll(keys, t, s[f.len..]));
      case None =>
        CopiedTail(s, ReplaceAll(keys, t, s[1..]), m, j);
        Literal(keys, t, s[1..], m, k, j + 1);
        LiteralStep(s, m, j);
    }
  }

  lemma {:induction false} CopiedExpression(keys: seq<Key>, t: Site, s: string, m: string, k: Key)
    requires GoodKeys(keys) && k in keys && Harmless(t) && !Within(t.url, k.text)
    requires s != "" && Match(keys, s).None? && Braced(m, k.text)
    ensures !(m <= ReplaceAll(keys, t, s))
  {
    if m <= ReplaceAll(keys, t, s) {
      assert m[1..] <= ReplaceAll(keys, t, s[1..]);
      Literal(keys, t, s[1..], m, k, 1);
      assert s == m + s[|m|..];
      MatchComplete(keys, m, k, s[|m|..]);
    }
  }

  /** A scanner that copies a character leaves no expression starting at it. */
  lemma CopiedHead(keys: seq<Key>, t: Site, s: string)
    requires GoodKeys(keys) && Harmless(t) && !Embeddable(keys, t)
    requires s != "" && Match(keys, s).None?
    ensures var out := ReplaceAll(keys, t, s);
      Match(keys, out).Some? ==> Exempt(t, Match(keys, out).value.key)
  {
    var out := ReplaceAll(keys, t, s);
    if Match(keys, out).Some? && !Exempt(t, Match(keys, out).value.key) {
      var f := Match(keys, out).value;
      MatchSound(keys, out);
      CopiedExpression(keys, t, s, out[..f.len], f.key);
    }
  }

  /** The only '$' of a replacement is the one of an expression that stays. */
  lemma ReplacementDollar(t: Site, expr: string, k: Key, i: nat)
    requires Harmless(t) && Braced(expr, k.text) && NoBraces(k.text)
    requires i < |Replacement(t, expr, k)| && Replacement(t, expr, k)[i] == '$'
    ensures Exempt(t, k) && i == 0
  {
    BracedShape(expr, k.text);
  }

  /** No expression starts inside a replacement, except the exempt one that is kept. */
  lemma {:induction false} ReplacedHead(keys: seq<Key>, t: Site, s: string)
    requires GoodKeys(keys) && Harmless(t) && Match(keys, s).Some?
    ensures var f := Match(keys, s).value;
      var r, out := Replacement(t, s[..f.len], f.key), ReplaceAll(keys, t, s);
      out == r + ReplaceAll(keys, t, s[f.len..]) && HeadClean(keys, t, out, |r|)
  {
    var f := Match(keys, s).value;
    var expr := s[..f.len];
    var rest := ReplaceAll(keys, t, s[f.len..]);
    var r, out := Replacement(t, expr, f.key), ReplaceAll(keys, t, s);
    MatchSound(keys, s);
    KeyHasNoBraces(keys, f.key);
    forall i | 0 <= i < |r| && Match(keys, out[i..]).Some?
      ensures Exempt(t, Match(keys, out[i..]).value.key)
    {
      assert out[i..][0] == r[i];
      ReplacementDollar(t, expr, f.key, i);
      MatchComplete(keys, expr, f.key, rest);
      assert out[0..] == out == expr + rest;
    }
  }

  /** Expressions of a concatenation start in its front or lie in its back. */
  lemma CleanJoin(keys: seq<Key>, t: Site, front: string, back: string)
    requires Clean(keys, t, back)
    requires HeadClean(keys, t, front + back, |front|)
    ensures Clean(keys, t, front + back)
  {
    var out := front + back;
    forall i | 0 <= i < |out| && Match(keys, out[i..]).Some?
      ensures Exempt(t, Match(keys, out[i..]).value.key)
    {
      if i >= |front| {
        assert out[i..] == back[i - |front|..];
      }
    }
  }

  lemma HeadOfOne(keys: seq<Key>, t: Site, out: string)
    requires Match(keys, out).Some? ==> Exempt(t, Match(keys, out).value.key)
    ensures out != "" ==> HeadClean(keys, t, out, 1)
  {
    assert out[0..] == out;
  }

  lemma CopyOne(keys: seq<Key>, t: Site, s: string)
    requires s != "" && Match(keys, s).None?
    ensures ReplaceAll(keys, t, s) == [s[0]] + ReplaceAll(keys, t, s[1..])
  {
  }

  lemma CleanCopied(keys: seq<Key>, t: Site, s: string)
    requires GoodKeys(keys) && Harmless(t) && !Embeddable(keys, t)
    requires s != "" && Match(keys, s).None? && Clean(keys, t, ReplaceAll(keys, t, s[1..]))
    ensures Clean(keys, t, ReplaceAll(keys, t, s))
  {
    CopiedHead(keys, t, s);
    CopyOne(keys, t, s);
    HeadOfOne(keys, t, ReplaceAll(keys, t, s));
    CleanJoin(keys, t, [s[0]], ReplaceAll(keys, t, s[1..]));
  }

  lemma CleanReplaced(keys: seq<Key>, t: Site, s: string)
    requires GoodKeys(keys) && Harmless(t) && Match(keys, s).Some?
    requires Clean(keys, t, ReplaceAll(keys, t, s[Match(keys, s).value.len..]))
    ensures Clean(keys, t, ReplaceAll(keys, t, s))
  {
    var f := Match(keys, s).value;
    ReplacedHead(keys, t, s);
    CleanJoin(keys, t, Replacement(t, s[..f.len], f.key), ReplaceAll(keys, t, s[f.len..]));
  }

  /** Every expression that should be replaced has been, even where a replacement sits
      between fragments of one. */
  lemma {:induction false} ReplaceAllClean(keys: seq<Key>, t: Site, s: string)
    requires GoodKeys(keys) && Harmless(t) && !Embeddable(keys, t)
    ensures Clean(keys, t, ReplaceAll(keys, t, s))
    decreases |s|
  {
    if s != "" {
      match Match(keys, s)
      case None =>
        ReplaceAllClean(keys, t, s[1..]);
        CleanCopied(keys, t, s);
      case Some(f) =>
        ReplaceAllClean(keys, t, s[f.len..]);
        CleanReplaced(keys, t, s);
    }
  }

  /** A scalar with nothing to replace is left as it is. */
  lemma {:induction false} CleanIsFixed(keys: seq<Key>, t: Site, s: string)
    requires Clean(keys, t, s)
    ensures ReplaceAll(keys, t, s) == s
    decreases |s|
  {
    if s != "" {
      assert s[0..] == s;
      var n := if Match(keys, s).Some? then Match(keys, s).value.len else 1;
      forall i | 0 <= i < |s[n..]| && Match(keys, s[n..][i..]).Some?
        ensures Exempt(t, Match(keys, s[n..][i..]).value.key)
      {
        assert s[n..][i..] == s[n + i..];
      }
      CleanIsFixed(keys, t, s[n..]);
      assert s == s[..n] + s[n..];
    }
  }

  // ---- the condition is necessary ----

  lemma SplitFirst(x: string, rest: string)
    requires x != ""
    ensures x + rest == [x[0]] + (x[1..] + rest)
  {
  }

  lemma CopyFirst(keys: seq<Key>, t: Site, x: string, rest: string)
    requires x != "" && x[0] != '$'
    ensures ReplaceAll(keys, t, x + rest) == [x[0]] + ReplaceAll(keys, t, x[1..] + rest)
  {
    var s := x + rest;
    assert s[0] == x[0] && s[1..] == x[1..] + rest;
    CopyOne(keys, t, s);
  }

  /** Text without a '$' is copied. */
  lemma {:induction false} CopyThrough(keys: seq<Key>, t: Site, x: string, rest: string)
    requires forall i :: 0 <= i < |x| ==> x[i] != '$'
    ensures ReplaceAll(keys, t, x + rest) == x + ReplaceAll(keys, t, rest)
    decreases |x|
  {
    if x == "" {
      assert x + rest == rest;
    } else {
      CopyFirst(keys, t, x, rest);
      CopyThrough(keys, t, x[1..], rest);
      SplitFirst(x, ReplaceAll(keys, t, rest));
    }
  }

  lemma BrokenBraced(m: string, text: string, x: string, rest: string)
    requires Braced(m, text) && NoBraces(text) && NoBraces(x) && rest != "" && rest[0] == '$'
    ensures !(m <= "${{" + x + rest)
  {
    BracedShape(m, text);
    var s := "${{" + x + rest;
    if |m| <= 3 + |x| {
      assert s[|m| - 1] == x[|m| - 4] != m[|m| - 1];
    } else {
      assert s[3 + |x|] == '$' != m[3 + |x|];
    }
  }

  /** An opening that runs into another '$' before it closes is no expression. */
  lemma BrokenOpening(keys: seq<Key>, x: string, rest: string)
    requires GoodKeys(keys) && NoBraces(x) && rest != "" && rest[0] == '$'
    ensures Match(keys, "${{" + x + rest).None?
  {
    var s := "${{" + x + rest;
    if Match(keys, s).Some? {
      var f := Match(keys, s).value;
      MatchSound(keys, s);
      KeyHasNoBraces(keys, f.key);
      BrokenBraced(s[..f.len], f.key.text, x, rest);
    }
  }

  function Plain(k: Key): string {
    "${{" + k.text + "}}"
  }

  lemma BracedFrom(before: string, text: string, after: string)
    requires AllSpace(before) && AllSpace(after)
    ensures Braced("${{" + before + text + after + "}}", text)
  {
  }

  lemma PlainMatches(keys: seq<Key>, k: Key, rest: string)
    requires GoodKeys(keys) && k in keys
    ensures Match(keys, Plain(k) + rest) == Some(Found(|Plain(k)|, k))
  {
    BracedFrom("", k.text, "");
    assert "${{" + "" + k.text + "" + "}}" == Plain(k);
    MatchComplete(keys, Plain(k), k, rest);
  }

  lemma Regroup(o: string, a: string, u: string, b: string, c: string, x: string, y: string, z: string)
    requires x + y + z == a + u + b
    ensures o + (a + (u + (b + c))) == o + x + y + z + c
  {
    assert a + (u + (b + c)) == (a + u + b) + c;
    assert o + x + y + z + c == o + ((x + y + z) + c);
  }

  lemma PartsHaveNoBraces(before: string, text: string, after: string, a: string, u: string, b: string)
    requires AllSpace(before) && AllSpace(after) && NoBraces(text) && before + text + after == a + u + b
    ensures NoBraces(a) && NoBraces(b)
  {
    var inner := before + text + after;
    assert NoBraces(inner);
    assert forall i :: 0 <= i < |a| ==> inner[i] == a[i];
    assert forall i :: 0 <= i < |b| ==> inner[|a| + |u| + i] == b[i];
  }

  lemma {:induction false} ReplacePlain(keys: seq<Key>, t: Site, server: Key, tail: string)
    requires GoodKeys(keys) && server in keys && server.target.Server?
    requires forall i :: 0 <= i < |tail| ==> tail[i] != '$'
    ensures ReplaceAll(keys, t, Plain(server) + tail) == t.url + tail
  {
    var s := Plain(server) + tail;
    PlainMatches(keys, server, tail);
    assert s[|Plain(server)|..] == tail;
    CopyThrough(keys, t, tail, "");
    assert tail + "" == tail;
  }

  lemma OpeningTail(open: string, a: string, mid: string)
    requires NoBraces(a) && open == "${{"
    ensures var s := open + a + mid;
      && s[1..] == (open[1..] + a) + mid && s[0] == open[0] && s == open + (a + mid)
      && s == [open[0]] + ((open[1..] + a) + mid)
    ensures forall i :: 0 <= i < |open[1..] + a| ==> (open[1..] + a)[i] != '$'
  {
  }

  /** An opening that starts no expression is copied with the text behind it. */
  lemma CopyOpening(keys: seq<Key>, t: Site, open: string, a: string, mid: string)
    requires NoBraces(a) && open == "${{" && Match(keys, open + a + mid).None?
    ensures ReplaceAll(keys, t, open + a + mid) == open + (a + ReplaceAll(keys, t, mid))
  {
    var rest := open[1..] + a;
    OpeningTail(open, a, mid);
    CopyOne(keys, t, open + a + mid);
    CopyThrough(keys, t, rest, mid);
    OpeningTail(open, a, ReplaceAll(keys, t, mid));
  }

  lemma EmbeddedOutput(keys: seq<Key>, t: Site, server: Key, a: string, b: string)
    requires GoodKeys(keys) && server in keys && server.target.Server? && NoBraces(a) && NoBraces(b)
    ensures ReplaceAll(keys, t, "${{" + a + (Plain(server) + (b + "}}"))) == "${{" + (a + (t.url + (b + "}}")))
  {
    var tail := b + "}}";
    BrokenOpening(keys, a, Plain(server) + tail);
    CopyOpening(keys, t, "${{", a, Plain(server) + tail);
    ReplacePlain(keys, t, server, tail);
  }

  /** An embeddable URL is betrayed by a scalar that puts a server expression in its place. */
  lemma {:induction false} EmbeddedSurvives(keys: seq<Key>, t: Site, server: Key) returns (v: string)
    requires GoodKeys(keys) && Harmless(t) && Embeddable(keys, t)
    requires server in keys && server.target.Server?
    ensures !Clean(keys, t, ReplaceAll(keys, t, v))
  {
    var k :| k in keys && !Exempt(t, k) && Within(t.url, k.text);
    var before, after, a, b :| AllSpace(before) && AllSpace(after) && before + k.text + after == a + t.url + b;
    KeyHasNoBraces(keys, k);
    PartsHaveNoBraces(before, k.text, after, a, t.url, b);
    v := "${{" + a + (Plain(server) + (b + "}}"));
    EmbeddedOutput(keys, t, server, a, b);
    Regroup("${{", a, t.url, b, "}}", before, k.text, after);
    BracedFrom(before, k.text, after);
    var out := ReplaceAll(keys, t, v);
    assert out + "" == out && out[0..] == out;
    MatchComplete(keys, out, k, "");
  }

  // ---- main results, for the pattern itself ----

  /** The cheap test before the scan changes nothing. */
  lemma {:induction false} SkipIsSafe(t: Site, v: string)
    ensures RewriteScalar(t, v) == ReplaceAll(KEYS, t, v)
  {
    if !Contains(v, "${{") {
      forall i | 0 <= i < |v| ensures Match(KEYS, v[i..]).None? {
        assert !("${{" <= v[i..]);
      }
      CleanIsFixed(KEYS, t, v);
    }
  }

  /** For a brace-free URL and repository: no expression of the pattern survives in any
      scalar exactly when the URL cannot pass for part of a key. */
  lemma {:induction false} NormalisationCompleteIff(t: Site)
    requires Harmless(t)
    ensures (forall v :: Clean(KEYS, t, RewriteScalar(t, v))) <==> !Embeddable(KEYS, t)
  {
    PatternKeys();
    if Embeddable(KEYS, t) {
      assert KEYS[0] in KEYS;
      var v := EmbeddedSurvives(KEYS, t, KEYS[0]);
      SkipIsSafe(t, v);
    } else {
      forall v ensures Clean(KEYS, t, RewriteScalar(t, v)) {
        SkipIsSafe(t, v);
        ReplaceAllClean(KEYS, t, v);
      }
    }
  }

  // ---- what each expression becomes ----

  predicate NoDollar(s: string) {
    forall i :: 0 <= i < |s| ==> s[i] != '$'
  }

  /** One of the seven expressions. */
  ghost predicate Listed(expr: string) {
    || Braced(expr, "github.server_url") || Braced(expr, "github.api_url") || Braced(expr, "github.repository_url")
    || Braced(expr, "env.GITHUB_SERVER_URL") || Braced(expr, "env.GITHUB_API_URL")
    || Braced(expr, "env.FORGEJO_API_URL") || Braced(expr, "env.FORGEJO_SERVER_URL")
  }

  lemma KeysAreListed(k: Key)
    requires k in KEYS
    ensures forall expr :: Braced(expr, k.text) ==> Listed(expr)
  {
    var i :| 0 <= i < |KEYS| && KEYS[i] == k;
  }

  /** Text without a '$' is left alone. */
  lemma PlainText(t: Site, text: string)
    requires NoDollar(text)
    ensures RewriteScalar(t, text) == text
  {
    SkipIsSafe(t, text);
    CopyThrough(KEYS, t, text, "");
    assert text + "" == text;
  }

  lemma ReplaceFirst(keys: seq<Key>, t: Site, expr: string, k: Key, rest: string)
    requires GoodKeys(keys) && k in keys && Braced(expr, k.text)
    ensures ReplaceAll(keys, t, expr + rest) == Replacement(t, expr, k) + ReplaceAll(keys, t, rest)
  {
    MatchComplete(keys, expr, k, rest);
    assert (expr + rest)[..|expr|] == expr && (expr + rest)[|expr|..] == rest;
  }

  /** The first expression of a scalar is replaced, what precedes it is copied, and the rest
      is rewritten on its own. */
  lemma ReplaceNext(t: Site, head: string, expr: string, i: nat, rest: string)
    requires NoDollar(head) && i < |KEYS| && Braced(expr, KEYS[i].text)
    ensures RewriteScalar(t, head + (expr + rest)) == head + Replacement(t, expr, KEYS[i]) + RewriteScalar(t, rest)
  {
    PatternKeys();
    SkipIsSafe(t, head + (expr + rest));
    SkipIsSafe(t, rest);
    CopyThrough(KEYS, t, head, expr + rest);
    ReplaceFirst(KEYS, t, expr, KEYS[i], rest);
  }

  function Expression(before: string, key: string, after: string): string {
    "${{" + before + key + after + "}}"
  }

  /** The three expressions for the server. */
  lemma ServerBecomes(t: Site, head: string, before: string, key: string, after: string, rest: string)
    requires NoDollar(head) && AllSpace(before) && AllSpace(after)
    requires key == "github.server_url" || key == "env.GITHUB_SERVER_URL" || key == "env.FORGEJO_SERVER_URL"
    ensures RewriteScalar(t, head + (Expression(before, key, after) + rest)) == head + t.url + RewriteScalar(t, rest)
  {
    var i := if key == "github.server_url" then 0 else if key == "env.GITHUB_SERVER_URL" then 3 else 6;
    assert KEYS[i].text == key && KEYS[i].target.Server?;
    BracedFrom(before, key, after);
    ReplaceNext(t, head, Expression(before, key, after), i, rest);
  }

  /** The three expressions for the API. */
  lemma ApiBecomes(t: Site, head: string, before: string, key: string, after: string, rest: string)
    requires NoDollar(head) && AllSpace(before) && AllSpace(after)
    requires key == "github.api_url" || key == "env.GITHUB_API_URL" || key == "env.FORGEJO_API_URL"
    ensures RewriteScalar(t, head + (Expression(before, key, after) + rest))
         == head + (t.url + "/api/v1") + RewriteScalar(t, rest)
  {
    var i := if key == "github.api_url" then 1 else if key == "env.GITHUB_API_URL" then 4 else 5;
    assert KEYS[i].text == key && KEYS[i].target.Api?;
    BracedFrom(before, key, after);
    ReplaceNext(t, head, Expression(before, key, after), i, rest);
  }

  /** The expression for the repository, which stays while none is known. */
  lemma RepositoryBecomes(t: Site, head: string, before: string, after: string, rest: string)
    requires NoDollar(head) && AllSpace(before) && AllSpace(after)
    ensures var expr := Expression(before, "github.repository_url", after);
      RewriteScalar(t, head + (expr + rest))
        == head + (if t.repository == "" then expr else t.url + "/" + t.repository) + RewriteScalar(t, rest)
  {
    assert KEYS[2].text == "github.repository_url" && KEYS[2].target.Repository?;
    BracedFrom(before, KEYS[2].text, after);
    ReplaceNext(t, head, Expression(before, KEYS[2].text, after), 2, rest);
  }

  lemma FoundIsListed(s: string) returns (n: nat)
    requires Match(KEYS, s).Some?
    ensures n <= |s| && Listed(s[..n])
  {
    var f := Match(KEYS, s).value;
    n := f.len;
    MatchSound(KEYS, s);
    KeysAreListed(f.key);
  }

  /** Some stretch of the scalar is one of the seven expressions. */
  ghost predicate Holds(v: string) {
    exists i, n :: 0 <= i <= n <= |v| && Listed(v[i..n])
  }

  lemma FoundHolds(v: string, i: nat)
    requires i < |v| && Match(KEYS, v[i..]).Some?
    ensures Holds(v)
  {
    var n := FoundIsListed(v[i..]);
    assert v[i..][..n] == v[i..i + n];
  }

  /** Anything else in double braces is left alone: a scalar changes only where one of the
      seven expressions stands. */
  lemma OthersStay(t: Site, v: string)
    ensures RewriteScalar(t, v) != v ==> Holds(v)
  {
    SkipIsSafe(t, v);
    if forall i :: 0 <= i < |v| ==> Match(KEYS, v[i..]).None? {
      CleanIsFixed(KEYS, t, v);
    } else {
      var i :| 0 <= i < |v| && Match(KEYS, v[i..]).Some?;
      FoundHolds(v, i);
    }
  }

  /** A URL with a colon in it never passes for part of a key. */
  lemma ColonIsEnough(t: Site)
    requires ':' in t.url
    ensures !Embeddable(KEYS, t)
  {
    PatternKeys();
    forall k | k in KEYS && !Exempt(t, k) ensures !Within(t.url, k.text) {
      KeyHasNoBraces(KEYS, k);
      var i :| 0 <= i < |t.url| && t.url[i] == ':';
      forall before, after, a, b | AllSpace(before) && AllSpace(after)
        ensures before + k.text + after != a + t.url + b
      {
        var whole := a + t.url + b;
        assert whole[|a| + i] == ':';
        var inner := before + k.text + after;
        assert ':' !in inner;
      }
    }
  }

  /** A second pass over a scalar changes nothing. */
  lemma {:induction false} NormalisationIdempotent(t: Site, v: string)
    requires Harmless(t) && !Embeddable(KEYS, t)
    ensures RewriteScalar(t, RewriteScalar(t, v)) == RewriteScalar(t, v)
  {
    NormalisationCompleteIff(t);
    SkipIsSafe(t, RewriteScalar(t, v));
    CleanIsFixed(KEYS, t, RewriteScalar(t, v));
  }

  /** The rewriter reports a change exactly for scalars that hold a replaceable expression. */
  lemma {:induction false} ChangedIff(t: Site, v: string)
    requires Harmless(t) && !Embeddable(KEYS, t)
    ensures RewriteScalar(t, v) != v <==> !Clean(KEYS, t, v)
  {
    NormalisationCompleteIff(t);
    SkipIsSafe(t, v);
    if Clean(KEYS, t, v) {
      CleanIsFixed(KEYS, t, v);
    }
  }

  // ---- a URL that does pass for part of a key ----

  const BARE_HOST := "github."
  const BETRAYED := "server_url"

  lemma BareHostFits()
    ensures KEYS[0].text == BARE_HOST + BETRAYED && KEYS[0].target.Server?
    ensures NoBraces(BARE_HOST) && NoBraces(BETRAYED)
  {
    assert "github.server_url" == "github." + "server_url";
  }

  lemma PartEmbeds(t: Site, k: Key, rest: string)
    requires k in KEYS && !Exempt(t, k) && k.text == t.url + rest
    ensures Embeddable(KEYS, t)
  {
    assert "" + k.text + "" == "" + t.url + rest;
    WithinFrom(t.url, k.text, "", "", "", rest);
  }

  lemma PlainSurvives(t: Site, k: Key)
    requires k in KEYS && !Exempt(t, k)
    ensures !Clean(KEYS, t, Plain(k))
  {
    PatternKeys();
    PlainMatches(KEYS, k, "");
    assert Plain(k) + "" == Plain(k) && Plain(k)[0..] == Plain(k);
  }

  /** The scalar that puts a server expression in front of the rest of a key. */
  function Bait(k: Key, rest: string): string {
    "${{" + "" + (Plain(k) + (rest + "}}"))
  }

  lemma BaitJoined(url: string, rest: string, text: string)
    requires text == url + rest
    ensures "${{" + ("" + (url + (rest + "}}"))) == "${{" + text + "}}"
  {
    assert "${{" + (url + (rest + "}}")) == "${{" + (url + rest) + "}}";
  }

  lemma BaitTaken(keys: seq<Key>, t: Site, k: Key, rest: string)
    requires GoodKeys(keys) && k in keys && k.target.Server? && NoBraces(rest) && k.text == t.url + rest
    ensures ReplaceAll(keys, t, Bait(k, rest)) == Plain(k)
  {
    EmbeddedOutput(keys, t, k, "", rest);
    BaitJoined(t.url, rest, k.text);
  }

  /** `github.` as URL is embeddable: a server expression put in front of `server_url` becomes
      a server expression again. */
  lemma BareHostWitness(repository: string)
    requires NoBraces(repository)
    ensures var t, v := Site(BARE_HOST, repository), Bait(KEYS[0], BETRAYED);
      && Harmless(t) && Embeddable(KEYS, t)
      && RewriteScalar(t, v) == Plain(KEYS[0]) && !Clean(KEYS, t, RewriteScalar(t, v))
  {
    var t, k := Site(BARE_HOST, repository), KEYS[0];
    BareHostFits();
    assert k in KEYS;
    PartEmbeds(t, k, BETRAYED);
    PatternKeys();
    BaitTaken(KEYS, t, k, BETRAYED);
    SkipIsSafe(t, Bait(k, BETRAYED));
    PlainSurvives(t, k);
  }
}
