/** The rewriter on encoded payloads (internal/south/payload.go). */
module PayloadBytes {
  import opened Codecs
  import opened Wrappers
  import opened Normalise
  import opened Payload
  import opened PayloadPass
  import opened PayloadInject

  /** What is relied on of the YAML library: encoded trees decode to themselves, and only
      well-formed trees are decoded. */
  ghost predicate ReadsYaml(c: Codec<Tree>) {
    RoundTrips(c) && forall b :: c.decode(b).Some? ==> Paired(c.decode(b).value)
  }

  /** The root mapping of a document that can be rewritten. */
  function RootOf(c: Codec<Tree>, payload: Bytes): Option<Tree> {
    match c.decode(payload)
    case None => None
    case Some(doc) =>
      if doc.kind.Document? && |doc.content| > 0 && doc.content[0].kind.Mapping? then Some(doc) else None
  }

  function WithTop(doc: Tree, top: Tree): Tree
    requires |doc.content| > 0
  {
    doc.(content := doc.content[0 := top])
  }

  /** Re-encodes a changed document; the original bytes otherwise.  None is an error. */
  function Stage(c: Codec<Tree>, payload: Bytes, f: Tree -> Tree): Option<Bytes> {
    match RootOf(c, payload)
    case None => None
    case Some(doc) =>
      var top := f(doc.content[0]);
      if top == doc.content[0] then Some(payload) else c.encode(WithTop(doc, top))
  }

  /** rewriteWorkflowPayload: injection, then normalisation; the input on any error. */
  function RewritePayload(c: Codec<Tree>, site: Site, payload: Bytes): Bytes {
    if payload == [] || site.url == "" then payload else
    match Stage(c, payload, top => Inject(site.url, top))
    case None => payload
    case Some(once) =>
      (match Stage(c, once, top => RewriteTree(site, top))
       case None => payload
       case Some(twice) => twice)
  }

  /** A stage that succeeds yields the image of the document. */
  lemma StageResult(c: Codec<Tree>, payload: Bytes, f: Tree -> Tree)
    requires ReadsYaml(c) && RootOf(c, payload).Some? && Stage(c, payload, f).Some?
    requires f(RootOf(c, payload).value.content[0]).kind.Mapping?
    ensures var doc := RootOf(c, payload).value;
      RootOf(c, Stage(c, payload, f).value) == Some(WithTop(doc, f(doc.content[0])))
  {
    var doc := RootOf(c, payload).value;
    if f(doc.content[0]) == doc.content[0] {
      assert WithTop(doc, doc.content[0]).content == doc.content;
    }
  }

  lemma StageFixed(c: Codec<Tree>, payload: Bytes, f: Tree -> Tree)
    requires RootOf(c, payload).Some? && f(RootOf(c, payload).value.content[0]) == RootOf(c, payload).value.content[0]
    ensures Stage(c, payload, f) == Some(payload)
  {
  }

  lemma InjectKind(url: string, top: Tree)
    ensures Inject(url, top).kind == top.kind
  {
  }

  /** The encoder copes with every tree the rewriter has to write. */
  ghost predicate Writes(c: Codec<Tree>, site: Site, doc: Tree)
    requires |doc.content| > 0
  {
    var top := doc.content[0];
    && (Inject(site.url, top) != top ==> c.encode(WithTop(doc, Inject(site.url, top))).Some?)
    && (Pass(site, top) != Inject(site.url, top) ==> c.encode(WithTop(doc, Pass(site, top))).Some?)
  }

  /** Both stages one after the other. */
  lemma BothStages(c: Codec<Tree>, site: Site, payload: Bytes, doc: Tree)
    requires ReadsYaml(c) && RootOf(c, payload) == Some(doc) && payload != [] && site.url != ""
    ensures Writes(c, site, doc) ==>
            RootOf(c, RewritePayload(c, site, payload)) == Some(WithTop(doc, Pass(site, doc.content[0])))
    ensures !Writes(c, site, doc) ==> RewritePayload(c, site, payload) == payload
  {
    var top := doc.content[0];
    var first := Stage(c, payload, t => Inject(site.url, t));
    InjectKind(site.url, top);
    if first.Some? {
      StageResult(c, payload, t => Inject(site.url, t));
      var doc1 := WithTop(doc, Inject(site.url, top));
      RewriteShape(site, doc1.content[0]);
      assert WithTop(doc1, Pass(site, top)).content == WithTop(doc, Pass(site, top)).content;
      if Stage(c, first.value, t => RewriteTree(site, t)).Some? {
        StageResult(c, first.value, t => RewriteTree(site, t));
      }
    }
  }

  /** rewriteWorkflowPayload does its work: for every payload that is a YAML document with a
      mapping at its root, the bytes handed out decode to the document with the pass over its
      root, as long as the encoder copes. */
  lemma RewritePayloadDoes(c: Codec<Tree>, site: Site, payload: Bytes, doc: Tree)
    requires ReadsYaml(c) && payload != [] && site.url != "" && c.decode(payload) == Some(doc)
    requires doc.kind.Document? && |doc.content| > 0 && doc.content[0].kind.Mapping? && Writes(c, site, doc)
    ensures c.decode(RewritePayload(c, site, payload)) == Some(WithTop(doc, Pass(site, doc.content[0])))
  {
    BothStages(c, site, payload, doc);
  }

  /** Every other payload is handed out as it is. */
  lemma RewritePayloadPassesThrough(c: Codec<Tree>, site: Site, payload: Bytes)
    requires ReadsYaml(c)
    requires site.url != "" ==>
               match c.decode(payload)
               case None => true
               case Some(doc) =>
                 !doc.kind.Document? || doc.content == [] || !doc.content[0].kind.Mapping? || !Writes(c, site, doc)
    ensures RewritePayload(c, site, payload) == payload
  {
    if payload != [] && site.url != "" && RootOf(c, payload).Some? {
      BothStages(c, site, payload, RootOf(c, payload).value);
    }
  }

  /** A payload with nothing to do keeps its bytes. */
  lemma RewritePayloadKeepsBytes(c: Codec<Tree>, site: Site, payload: Bytes, doc: Tree)
    requires RootOf(c, payload) == Some(doc)
             && Inject(site.url, doc.content[0]) == doc.content[0] == Pass(site, doc.content[0])
    ensures RewritePayload(c, site, payload) == payload
  {
    StageFixed(c, payload, t => Inject(site.url, t));
    StageFixed(c, payload, t => RewriteTree(site, t));
  }

  /** What a payload decodes to after rewriting, when it differs. */
  lemma RewrittenRoot(c: Codec<Tree>, site: Site, payload: Bytes)
    requires ReadsYaml(c) && RewritePayload(c, site, payload) != payload
    ensures RootOf(c, payload).Some?
    ensures var doc := RootOf(c, payload).value;
      RootOf(c, RewritePayload(c, site, payload)) == Some(WithTop(doc, Pass(site, doc.content[0])))
  {
    BothStages(c, site, payload, RootOf(c, payload).value);
  }

  // ---- what a rewritten payload holds ----

  /** The step's input sends checkout to `url`. */
  predicate PointsAt(step: Tree, url: string) {
    && step.kind.Mapping? && Find(step, "with").Some?
    && var w := step.content[Find(step, "with").value];
       w.kind.Mapping? && Find(w, "github-server-url").Some?
           && w.content[Find(w, "github-server-url").value].value == url
  }

  lemma StepPointed(site: Site, step: Tree)
    requires Harmless(site) && Paired(step) && Injectable(step)
    ensures PointsAt(RewriteTree(site, InjectStep(site.url, step)), site.url)
  {
    var step1 := InjectStep(site.url, step);
    OneStep(site.url, step);
    var w := StepWith(site.url, step);
    RewriteShape(site, step1);
    RewriteFind(site, step1, "with");
    RewriteShape(site, step1.content[w]);
    InputSurvives(site, step1.content[w]);
  }

  lemma StepsPointed(site: Site, top: Tree, i: nat, j: nat)
    requires Harmless(site) && top.kind.Mapping? && Paired(top) && IsStep(top, i, j) && Injectable(StepAt(top, i, j))
    ensures IsStep(Pass(site, top), i, j) && PointsAt(StepAt(Pass(site, top), i, j), site.url)
  {
    PassSteps(site, top, i, j);
    StepPaired(top, i, j);
    StepPointed(site, StepAt(top, i, j));
  }

  /** In the payload handed out no server-URL expression is left in any value, and every
      checkout step whose `with` is absent or a mapping is sent to the instance. */
  lemma RewrittenPayload(c: Codec<Tree>, site: Site, payload: Bytes, doc: Tree) returns (out: Tree)
    requires ReadsYaml(c) && GoodSite(site) && payload != [] && site.url != "" && c.decode(payload) == Some(doc)
    requires doc.kind.Document? && |doc.content| > 0 && doc.content[0].kind.Mapping? && Writes(c, site, doc)
    ensures c.decode(RewritePayload(c, site, payload)) == Some(WithTop(doc, out)) && CleanTree(site, out)
    ensures forall i, j :: IsStep(doc.content[0], i, j) && Injectable(StepAt(doc.content[0], i, j)) ==>
              IsStep(out, i, j) && PointsAt(StepAt(out, i, j), site.url)
  {
    var top := doc.content[0];
    out := Pass(site, top);
    RewritePayloadDoes(c, site, payload, doc);
    PassIsClean(site, top);
    assert Paired(doc) && Paired(top);
    forall i: nat, j: nat | IsStep(top, i, j) && Injectable(StepAt(top, i, j))
      ensures IsStep(out, i, j) && PointsAt(StepAt(out, i, j), site.url)
    {
      StepsPointed(site, top, i, j);
    }
  }

  lemma SettledAfterPass(site: Site, top: Tree)
    requires GoodSite(site) && top.kind.Mapping? && Paired(top)
    requires forall i, j :: IsStep(top, i, j) ==> CleanUses(site, StepAt(top, i, j))
    ensures Inject(site.url, Pass(site, top)) == Pass(site, top)
    ensures RewriteTree(site, Pass(site, top)) == Pass(site, top)
  {
    forall i: nat, j: nat | IsStep(top, i, j) ensures !LateCheckout(site, StepAt(top, i, j)) {
      CleanUsesStays(site, StepAt(top, i, j));
    }
    SecondInjectIff(site, top);
    RewriteTwice(site, Inject(site.url, top));
  }

  /** At the level of bytes: for every codec that round-trips, rewriting a rewritten payload
      returns the very same bytes, provided no `uses` value holds a server-URL expression. */
  lemma {:induction false} RewritePayloadIdempotent(c: Codec<Tree>, site: Site, payload: Bytes)
    requires ReadsYaml(c) && GoodSite(site)
    requires RootOf(c, payload).Some? ==>
               forall i, j :: IsStep(RootOf(c, payload).value.content[0], i, j) ==>
                 CleanUses(site, StepAt(RootOf(c, payload).value.content[0], i, j))
    ensures var once := RewritePayload(c, site, payload); RewritePayload(c, site, once) == once
  {
    var once := RewritePayload(c, site, payload);
    if once != payload {
      RewrittenRoot(c, site, payload);
      var doc := RootOf(c, payload).value;
      var top := doc.content[0];
      assert Paired(doc) && Paired(top);
      var e := Pass(site, top);
      SettledAfterPass(site, top);
      StageFixed(c, once, t => Inject(site.url, t));
      StageFixed(c, once, t => RewriteTree(site, t));
    }
  }
}
