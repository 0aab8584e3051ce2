/** The workflow payload rewriter on YAML node trees (internal/south/payload.go). */
module Payload {
  import opened Wrappers
  import opened Normalise
  import opened Checkout

  datatype Kind = Document | Sequence | Mapping | Scalar | Alias

  /** A YAML node.  A mapping's content alternates keys and values; an alias has no content.
      `extra` stands for style, anchor, comments and position. */
  datatype Tree = Tree(kind: Kind, tag: string, value: string, extra: int, content: seq<Tree>)

  const SERVER_INPUT := "github-server-url"

  function Str(s: string): Tree {
    Tree(Scalar, "!!str", s, 0, [])
  }

  predicate IsKey(t: Tree, key: string) {
    t.kind.Scalar? && t.value == key
  }

  /** Index of the value of the first scalar key `key` at or after `i`; |content| if absent. */
  function FindFrom(content: seq<Tree>, key: string, i: nat): (v: nat)
    ensures v < |content| ==> i < v && IsKey(content[v - 1], key) && (v - i) % 2 == 1
    ensures v <= |content| || v == i
    decreases |content| - i
  {
    if i + 1 >= |content| then (if i > |content| then i else |content|)
    else if IsKey(content[i], key) then i + 1
    else FindFrom(content, key, i + 2)
  }

  /** mappingValue: None when the key is absent. */
  function Find(m: Tree, key: string): (v: Option<nat>)
    ensures v.Some? ==> 0 < v.value < |m.content| && v.value % 2 == 1 && IsKey(m.content[v.value - 1], key)
  {
    var v := FindFrom(m.content, key, 0);
    if v < |m.content| then Some(v) else None
  }

  // ---- checkout injection ----

  function WithInput(w: Tree, input: string, value: string): Tree {
    match Find(w, input)
    case Some(v) => if w.content[v].value == value then w else w.(content := w.content[v := Str(value)])
    case None => w.(content := w.content + [Str(input), Str(value)])
  }

  /** setWithInput: the step afterwards. */
  function SetWithInput(step: Tree, input: string, value: string): Tree {
    match Find(step, "with")
    case None =>
      step.(content := step.content + [Str("with"), Tree(Mapping, "!!map", "", 0, [Str(input), Str(value)])])
    case Some(w) =>
      if !step.content[w].kind.Mapping? then step
      else step.(content := step.content[w := WithInput(step.content[w], input, value)])
  }

  predicate IsCheckoutStep(step: Tree) {
    && step.kind.Mapping?
    && Find(step, "uses").Some?
    && var uses := step.content[Find(step, "uses").value];
       uses.kind.Scalar? && IsCheckoutUses(uses.value)
  }

  function InjectStep(url: string, step: Tree): Tree {
    if IsCheckoutStep(step) then SetWithInput(step, SERVER_INPUT, url) else step
  }

  function InjectSteps(url: string, steps: Tree): Tree {
    if steps.kind.Sequence?
    then steps.(content := seq(|steps.content|, i requires 0 <= i < |steps.content| =>
                  InjectStep(url, steps.content[i])))
    else steps
  }

  function InjectJob(url: string, job: Tree): Tree {
    if !job.kind.Mapping? || Find(job, "steps").None? then job
    else
      var v := Find(job, "steps").value;
      job.(content := job.content[v := InjectSteps(url, job.content[v])])
  }

  /** Every second child, the values of a mapping, is a job. */
  function InjectJobs(url: string, jobs: Tree): Tree {
    if jobs.kind.Mapping?
    then jobs.(content := seq(|jobs.content|, i requires 0 <= i < |jobs.content| =>
                 if i % 2 == 1 then InjectJob(url, jobs.content[i]) else jobs.content[i]))
    else jobs
  }

  function Inject(url: string, top: Tree): Tree {
    match Find(top, "jobs")
    case None => top
    case Some(v) => top.(content := top.content[v := InjectJobs(url, top.content[v])])
  }

  // ---- expression normalisation ----

  /** rewriteScalarValues with the closure of normalizeServerURLs. */
  function RewriteTree(site: Site, t: Tree): Tree
    decreases t
  {
    match t.kind
    case Scalar => t.(value := RewriteScalar(site, t.value))
    case Mapping =>
      t.(content := seq(|t.content|, i requires 0 <= i < |t.content| =>
           if i % 2 == 1 then RewriteTree(site, t.content[i]) else t.content[i]))
    case _ =>
      t.(content := seq(|t.content|, i requires 0 <= i < |t.content| => RewriteTree(site, t.content[i])))
  }

  /** One pass over the root mapping of a payload. */
  function Pass(site: Site, top: Tree): Tree {
    RewriteTree(site, Inject(site.url, top))
  }

  /** What yaml.v3 guarantees of a parsed tree: mappings hold key/value pairs. */
  predicate Paired(t: Tree)
    decreases t
  {
    && (t.kind.Mapping? ==> |t.content| % 2 == 0)
    && (forall i :: 0 <= i < |t.content| ==> Paired(t.content[i]))
  }

  // ---- looking up keys ----

  /** The first key decides, and only even positions hold keys. */
  lemma {:induction false} FindFromSame(a: seq<Tree>, b: seq<Tree>, key: string, i: nat)
    requires |a| == |b| && i % 2 == 0
    requires forall j :: i <= j < |a| && j % 2 == 0 ==> a[j] == b[j]
    ensures FindFrom(a, key, i) == FindFrom(b, key, i)
    decreases |a| - i
  {
    if i + 1 < |a| && !IsKey(a[i], key) {
      FindFromSame(a, b, key, i + 2);
    }
  }

  lemma FindSame(a: Tree, b: Tree, key: string)
    requires |a.content| == |b.content|
    requires forall j :: 0 <= j < |a.content| && j % 2 == 0 ==> a.content[j] == b.content[j]
    ensures Find(a, key) == Find(b, key)
  {
    FindFromSame(a.content, b.content, key, 0);
  }

  /** Appending a pair to a mapping without the key makes it the first one. */
  lemma {:induction false} FindFromAppended(a: seq<Tree>, key: string, i: nat, v: Tree)
    requires |a| % 2 == 0 && i % 2 == 0 && i <= |a| && FindFrom(a, key, i) == |a|
    ensures FindFrom(a + [Str(key), v], key, i) == |a| + 1
    decreases |a| - i
  {
    var b := a + [Str(key), v];
    if i < |a| {
      assert b[i] == a[i];
      FindFromAppended(a, key, i + 2, v);
    } else {
      assert b[i] == Str(key);
    }
  }

  lemma {:induction false} FindFromFirst(content: seq<Tree>, key: string, i: nat, v: nat)
    requires i % 2 == 0 && i < v < |content| && v % 2 == 1 && IsKey(content[v - 1], key)
    requires forall j :: i <= j < v - 1 && j % 2 == 0 ==> !IsKey(content[j], key)
    ensures FindFrom(content, key, i) == v
    decreases v - i
  {
    if i != v - 1 {
      FindFromFirst(content, key, i + 2, v);
    }
  }

  /** mappingValue finds the value of the first of the even children that is the key. */
  lemma FindFirst(m: Tree, key: string, v: nat)
    requires v < |m.content| && v % 2 == 1 && IsKey(m.content[v - 1], key)
    requires forall j :: 0 <= j < v - 1 && j % 2 == 0 ==> !IsKey(m.content[j], key)
    ensures Find(m, key) == Some(v)
  {
    FindFromFirst(m.content, key, 0, v);
  }

  // ---- injection meets its specification ----

  /** The first `input` of the mapping has the value. */
  predicate HasInput(w: Tree, input: string, value: string) {
    Find(w, input).Some? && w.content[Find(w, input).value].value == value
  }

  /** All pairs of `a` but the one at `v` keep their place in `b`. */
  predicate KeepsPlaces(a: seq<Tree>, b: seq<Tree>, v: nat) {
    |a| <= |b| && forall i :: 0 <= i < |a| && i != v ==> b[i] == a[i]
  }

  lemma WithInputSpec(w: Tree, input: string, value: string)
    requires w.kind.Mapping? && |w.content| % 2 == 0
    ensures var w' := WithInput(w, input, value);
      && HasInput(w', input, value) && w'.kind.Mapping? && |w'.content| % 2 == 0
      && w' == w.(content := w'.content)
      && (Find(w, input).Some? ==>
          |w'.content| == |w.content| && KeepsPlaces(w.content, w'.content, Find(w, input).value))
      && (Find(w, input).None? ==> w'.content == w.content + [Str(input), Str(value)])
      && (w' != w <==> !HasInput(w, input, value))
  {
    var w' := WithInput(w, input, value);
    match Find(w, input)
    case Some(v) => FindSame(w, w', input);
    case None => FindFromAppended(w.content, input, 0, Str(value));
  }

  lemma NewBlockHasInput(input: string, value: string)
    ensures HasInput(Tree(Mapping, "!!map", "", 0, [Str(input), Str(value)]), input, value)
  {
    var pair := [Str(input), Str(value)];
    FindFromAppended([], input, 0, Str(value));
    assert [] + pair == pair;
  }

  /** setWithInput on a step without `with`: a block with the input is appended. */
  lemma AppendedWith(step: Tree, input: string, value: string)
    requires |step.content| % 2 == 0 && Find(step, "with").None?
    ensures var step' := SetWithInput(step, input, value);
      && step' == step.(content := step'.content) && step' != step
      && |step'.content| == |step.content| + 2 && step'.content[..|step.content|] == step.content
      && Find(step', "with") == Some(|step.content| + 1)
      && HasInput(step'.content[|step.content| + 1], input, value)
  {
    FindFromAppended(step.content, "with", 0, Tree(Mapping, "!!map", "", 0, [Str(input), Str(value)]));
    NewBlockHasInput(input, value);
  }

  lemma SameUpdate(t: Tree, i: nat, c: Tree)
    requires i < |t.content|
    ensures t.(content := t.content[i := c]) == t <==> c == t.content[i]
  {
    if c == t.content[i] {
      assert t.content[i := c] == t.content;
    } else {
      assert t.content[i := c][i] != t.content[i];
    }
  }

  /** setWithInput on a step with a `with` mapping: its first `input` has the value
      afterwards, everything else keeps its place, and the step differs exactly when the
      input was not already set. */
  lemma UpdatedWith(step: Tree, input: string, value: string, w: nat)
    requires Find(step, "with") == Some(w) && step.content[w].kind.Mapping? && |step.content[w].content| % 2 == 0
    ensures var step' := SetWithInput(step, input, value);
      && step' == step.(content := step.content[w := WithInput(step.content[w], input, value)])
      && Find(step', "with") == Some(w)
      && HasInput(step'.content[w], input, value)
      && (step' != step <==> !HasInput(step.content[w], input, value))
  {
    var step' := SetWithInput(step, input, value);
    FindSame(step, step', "with");
    WithInputSpec(step.content[w], input, value);
    SameUpdate(step, w, WithInput(step.content[w], input, value));
  }
}
