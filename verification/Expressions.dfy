/** The server-URL expressions of workflow payloads (internal/south/payload.go): one
    fixed regular expression, read as a leftmost scanner. */
module Expressions {
  import opened Wrappers

  /** What an expression stands for. */
  datatype Target = Server | Api | Repository

  datatype Key = Key(text: string, target: Target)

  /** The alternatives of the pattern, in order. */
  const KEYS: seq<Key> := [
    Key("github.server_url", Server),
    Key("github.api_url", Api),
    Key("github.repository_url", Repository),
    Key("env.GITHUB_SERVER_URL", Server),
    Key("env.GITHUB_API_URL", Api),
    Key("env.FORGEJO_API_URL", Api),
    Key("env.FORGEJO_SERVER_URL", Server)
  ]

  /** \s of the pattern. */
  predicate IsSpace(c: char) {
    c == '\t' || c == '\n' || c == '\U{0C}' || c == '\r' || c == ' '
  }

  lemma SpaceCharacters(c: char)
    ensures IsSpace(c) <==> c in "\t\n\U{0C}\r "
  {
  }

  predicate AllSpace(s: string) {
    forall i :: 0 <= i < |s| ==> IsSpace(s[i])
  }

  predicate IsKeyChar(c: char) {
    'a' <= c <= 'z' || 'A' <= c <= 'Z' || c == '_' || c == '.'
  }

  predicate Differ(t: string, u: string) {
    exists d :: 0 <= d < |t| && d < |u| && t[d] != u[d]
  }

  /** All that the scanner relies on: words over letters, dots and underscores, none of
      which continues another. */
  ghost predicate GoodKeys(keys: seq<Key>) {
    && (forall k :: k in keys ==> |k.text| > 0 && forall i :: 0 <= i < |k.text| ==> IsKeyChar(k.text[i]))
    && (forall i, j :: 0 <= i < j < |keys| ==> Differ(keys[i].text, keys[j].text))
  }

  // ---- the pattern, declaratively ----

  /** `m` is `text` in double braces, with any white space around it. */
  ghost predicate Braced(m: string, text: string) {
    exists before, after :: AllSpace(before) && AllSpace(after)
      && m == "${{" + before + text + after + "}}"
  }

  // ---- the pattern, as a scanner ----

  function SpaceRun(s: string): (n: nat)
    ensures n <= |s| && AllSpace(s[..n]) && (n < |s| ==> !IsSpace(s[n]))
  {
    if |s| > 0 && IsSpace(s[0]) then 1 + SpaceRun(s[1..]) else 0
  }

  /** The alternative that matches at the front of `s`, tried in order. */
  function KeyAt(keys: seq<Key>, s: string): (k: Option<Key>)
    ensures k.Some? ==> k.value in keys && k.value.text <= s
  {
    if |keys| == 0 then None
    else if keys[0].text <= s then Some(keys[0])
    else KeyAt(keys[1..], s)
  }

  /** The end of an expression whose key ends at `q`. */
  function CloseAt(s: string, q: nat): (n: Option<nat>)
    requires q <= |s|
    ensures n.Some? ==> q < n.value <= |s|
  {
    var r := q + SpaceRun(s[q..]);
    if r + 2 <= |s| && s[r] == '}' && s[r + 1] == '}' then Some(r + 2) else None
  }

  predicate Opens(s: string) {
    |s| >= 3 && s[0] == '$' && s[1] == '{' && s[2] == '{'
  }

  datatype Found = Found(len: nat, key: Key)

  /** The expression at the front of `s`, if there is one. */
  function Match(keys: seq<Key>, s: string): (f: Option<Found>)
    ensures f.Some? ==> 0 < f.value.len <= |s| && f.value.key in keys && s[0] == '$'
  {
    if !Opens(s) then None else
    var p := 3 + SpaceRun(s[3..]);
    match KeyAt(keys, s[p..])
    case None => None
    case Some(k) =>
      (match CloseAt(s, p + |k.text|)
       case None => None
       case Some(n) => Some(Found(n, k)))
  }

  // ---- the scanner implements the pattern ----

  /** Five consecutive slices of a string. */
  lemma Glue(s: string, a: string, b: string, c: string, d: string, e: string)
    requires a <= s && b <= s[|a|..] && c <= s[|a| + |b|..] && d <= s[|a| + |b| + |c|..]
    requires e <= s[|a| + |b| + |c| + |d|..]
    ensures |a| + |b| + |c| + |d| + |e| <= |s|
    ensures s[..|a| + |b| + |c| + |d| + |e|] == a + b + c + d + e
  {
  }

  lemma SoundParts(s: string, before: string, text: string, after: string)
    requires Opens(s) && AllSpace(before) && AllSpace(after)
    requires before <= s[3..] && text <= s[3 + |before|..] && after <= s[3 + |before| + |text|..]
    requires var r := 3 + |before| + |text| + |after|; r + 2 <= |s| && s[r] == '}' && s[r + 1] == '}'
    ensures Braced(s[..3 + |before| + |text| + |after| + 2], text)
  {
    var r := 3 + |before| + |text| + |after|;
    Glue(s, s[..3], before, text, after, s[r..r + 2]);
    assert s[..3] == "${{" && s[r..r + 2] == "}}";
  }

  lemma SpaceSlice(s: string, i: nat)
    requires i <= |s|
    ensures var n := SpaceRun(s[i..]);
      i + n <= |s| && AllSpace(s[i..i + n]) && s[i..i + n] <= s[i..] && |s[i..i + n]| == n
  {
    var n := SpaceRun(s[i..]);
    assert s[i..i + n] == s[i..][..n];
  }

  lemma CloseSound(s: string, q: nat, n: nat)
    requires q <= |s| && CloseAt(s, q) == Some(n)
    ensures var r := q + SpaceRun(s[q..]); n == r + 2 <= |s| && s[r] == '}' && s[r + 1] == '}'
  {
  }

  lemma SoundFrom(s: string, before: string, text: string, after: string, p: nat, q: nat, n: nat)
    requires Opens(s) && AllSpace(before) && AllSpace(after) && |before| == p - 3 && q == p + |text|
             && |after| == n - 2 - q
    requires p <= q <= n - 2 && n <= |s| && before <= s[3..] && text <= s[p..] && after <= s[q..]
    requires s[n - 2] == '}' && s[n - 1] == '}'
    ensures Braced(s[..n], text)
  {
    assert p == 3 + |before| && q == 3 + |before| + |text| && n == 3 + |before| + |text| + |after| + 2;
    SoundParts(s, before, text, after);
  }

  lemma SoundAt(s: string, p: nat, text: string, n: nat)
    requires Opens(s) && p == 3 + SpaceRun(s[3..]) && text <= s[p..] && CloseAt(s, p + |text|) == Some(n)
    ensures Braced(s[..n], text)
  {
    var q := p + |text|;
    SpaceSlice(s, 3);
    SpaceSlice(s, q);
    CloseSound(s, q, n);
    SoundFrom(s, s[3..p], text, s[q..n - 2], p, q, n);
  }

  /** What the scanner finds is an expression of the pattern. */
  lemma {:induction false} MatchSound(keys: seq<Key>, s: string)
    requires Match(keys, s).Some?
    ensures Braced(s[..Match(keys, s).value.len], Match(keys, s).value.key.text)
  {
    var f := Match(keys, s).value;
    SoundAt(s, 3 + SpaceRun(s[3..]), f.key.text, f.len);
  }

  /** Past a part of a string. */
  lemma Drop(s: string, i: nat, part: string, rest: string)
    requires i <= |s| && s[i..] == part + rest
    ensures i + |part| <= |s| && s[i + |part|..] == rest
  {
    assert s[i..][|part|..] == s[i + |part|..];
    assert (part + rest)[|part|..] == rest;
  }

  lemma FromTheRight(a: string, b: string, c: string, d: string, e: string, f: string)
    ensures a + b + c + d + e + f == a + (b + (c + (d + (e + f))))
  {
  }

  lemma {:induction false} SpaceRunExact(before: string, rest: string)
    requires AllSpace(before) && (rest == "" || !IsSpace(rest[0]))
    ensures SpaceRun(before + rest) == |before|
    decreases |before|
  {
    if before == "" {
      assert before + rest == rest;
    } else {
      assert (before + rest)[1..] == before[1..] + rest;
      SpaceRunExact(before[1..], rest);
    }
  }

  lemma {:induction false} KeyAtExact(keys: seq<Key>, k: Key, rest: string)
    requires GoodKeys(keys) && k in keys
    ensures KeyAt(keys, k.text + rest) == Some(k)
  {
    var s := k.text + rest;
    if keys[0] != k {
      var i :| 0 < i < |keys| && keys[i] == k;
      assert Differ(keys[0].text, keys[i].text);
      var d :| 0 <= d < |keys[0].text| && d < |k.text| && keys[0].text[d] != k.text[d];
      assert s[d] != keys[0].text[d];
      KeyAtExact(keys[1..], k, rest);
    }
  }

  lemma CloseExact(s: string, q: nat, after: string, close: string, rest: string)
    requires q <= |s| && s[q..] == after + (close + rest) && AllSpace(after) && close == "}}"
    ensures CloseAt(s, q) == Some(q + |after| + 2)
  {
    assert (close + rest)[0] == '}' && (close + rest)[1] == '}';
    SpaceRunExact(after, close + rest);
    Drop(s, q, after, close + rest);
  }

  lemma SpaceBefore(before: string, text: string, tail: string)
    requires AllSpace(before) && text != "" && !IsSpace(text[0])
    ensures SpaceRun(before + (text + tail)) == |before|
  {
    assert (text + tail)[0] == text[0];
    SpaceRunExact(before, text + tail);
  }

  lemma MatchParts(keys: seq<Key>, s: string, n: nat, k: Key, p: nat)
    requires Opens(s) && p == 3 + SpaceRun(s[3..]) && KeyAt(keys, s[p..]) == Some(k)
    requires p + |k.text| <= |s| && CloseAt(s, p + |k.text|) == Some(n)
    ensures Match(keys, s) == Some(Found(n, k))
  {
  }

  /** Where the parts of white space + key + white space + closing + rest begin. */
  lemma Offsets(s: string, before: string, text: string, after: string, close: string, rest: string)
    requires 3 <= |s| && s[3..] == before + (text + (after + (close + rest)))
    ensures 3 + |before| + |text| + |after| + |close| + |rest| == |s|
    ensures s[3 + |before|..] == text + (after + (close + rest))
    ensures s[3 + |before| + |text|..] == after + (close + rest)
  {
    Drop(s, 3, before, text + (after + (close + rest)));
    Drop(s, 3 + |before|, text, after + (close + rest));
  }

  /** The scanner's way through them. */
  lemma WayThrough(s: string, before: string, text: string, after: string, close: string, rest: string)
    requires AllSpace(before) && AllSpace(after) && close == "}}" && text != "" && !IsSpace(text[0]) && 3 <= |s|
    requires s[3..] == before + (text + (after + (close + rest)))
    ensures SpaceRun(s[3..]) == |before| && s[3 + |before|..] == text + (after + (close + rest))
    ensures |s| - |rest| == 3 + |before| + |text| + |after| + 2
    ensures CloseAt(s, 3 + |before| + |text|) == Some(|s| - |rest|)
  {
    Offsets(s, before, text, after, close, rest);
    SpaceBefore(before, text, after + (close + rest));
    CloseExact(s, 3 + |before| + |text|, after, close, rest);
  }

  lemma MatchAfter(keys: seq<Key>, s: string, before: string, k: Key, after: string, close: string, rest: string)
    requires AllSpace(before) && AllSpace(after) && close == "}}" && Opens(s)
    requires k.text != "" && !IsSpace(k.text[0]) && KeyAt(keys, k.text + (after + (close + rest))) == Some(k)
    requires s[3..] == before + (k.text + (after + (close + rest)))
    ensures Match(keys, s) == Some(Found(|s| - |rest|, k))
  {
    WayThrough(s, before, k.text, after, close, rest);
    MatchParts(keys, s, |s| - |rest|, k, 3 + |before|);
  }

  lemma KeyStarts(keys: seq<Key>, k: Key, tail: string)
    requires GoodKeys(keys) && k in keys
    ensures k.text != "" && !IsSpace(k.text[0]) && KeyAt(keys, k.text + tail) == Some(k)
  {
    assert IsKeyChar(k.text[0]);
    KeyAtExact(keys, k, tail);
  }

  lemma OpenFirst(open: string, tail: string)
    requires open == "${{"
    ensures Opens(open + tail) && (open + tail)[3..] == tail
  {
  }

  lemma BracedParts(m: string, text: string, rest: string) returns (before: string, after: string)
    requires Braced(m, text)
    ensures AllSpace(before) && AllSpace(after) && Opens(m + rest)
    ensures (m + rest)[3..] == before + (text + (after + ("}}" + rest)))
  {
    before, after :| AllSpace(before) && AllSpace(after) && m == "${{" + before + text + after + "}}";
    var open, close := "${{", "}}";
    FromTheRight(open, before, text, after, close, rest);
    OpenFirst(open, before + (text + (after + (close + rest))));
  }

  /** The scanner finds every expression of the pattern, whatever follows it. */
  lemma {:induction false} MatchComplete(keys: seq<Key>, m: string, k: Key, rest: string)
    requires GoodKeys(keys) && k in keys && Braced(m, k.text)
    ensures Match(keys, m + rest) == Some(Found(|m|, k))
  {
    var before, after := BracedParts(m, k.text, rest);
    KeyStarts(keys, k, after + ("}}" + rest));
    MatchAfter(keys, m + rest, before, k, after, "}}", rest);
  }

  lemma PatternChars(i: nat)
    requires i < |KEYS|
    ensures |KEYS[i].text| > 12 && forall j :: 0 <= j < |KEYS[i].text| ==> IsKeyChar(KEYS[i].text[j])
  {
    if i == 0 {
    } else if i == 1 {
    } else if i == 2 {
    } else if i == 3 {
    } else if i == 4 {
    } else if i == 5 {
    } else {
    }
  }

  /** Two of the pattern's keys differ within their first thirteen characters. */
  lemma PatternDiffer(i: nat, j: nat) returns (d: nat)
    requires i < j < |KEYS|
    ensures d < |KEYS[i].text| && d < |KEYS[j].text| && KEYS[i].text[d] != KEYS[j].text[d]
  {
    d := if i < 3 <= j then 0 else if i < 3 then 7 else if i < 5 && j >= 5 then 4 else if i == 3 then 11 else 12;
  }

  /** The pattern's own keys are fit for the scanner. */
  lemma {:induction false} PatternKeys()
    ensures GoodKeys(KEYS)
  {
    forall k | k in KEYS
      ensures |k.text| > 0 && forall i :: 0 <= i < |k.text| ==> IsKeyChar(k.text[i])
    {
      var i :| 0 <= i < |KEYS| && KEYS[i] == k;
      PatternChars(i);
    }
    forall i, j | 0 <= i < j < |KEYS| ensures Differ(KEYS[i].text, KEYS[j].text) {
      var d := PatternDiffer(i, j);
    }
  }
}
