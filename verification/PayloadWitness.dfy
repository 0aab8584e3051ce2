/** A payload that the rewriter changes twice (internal/south/payload.go): the condition of
    PayloadPass.PassIdempotentIff does fail. */
module PayloadWitness {
  import opened Wrappers
  import opened Expressions
  import opened Normalise
  import opened Checkout
  import opened Payload
  import opened PayloadPass

  const CHECKOUT_REPOSITORY := "actions" + ['/'] + "checkout"

  lemma RepositoryExpr(site: Site, k: Key)
    requires k in KEYS && k.target.Repository? && site.repository != ""
    ensures RewriteScalar(site, Plain(k)) == site.url + "/" + site.repository
  {
    PatternKeys();
    PlainMatches(KEYS, k, "");
    SkipIsSafe(site, Plain(k));
    assert Plain(k) + "" == Plain(k);
    assert Plain(k)[|Plain(k)|..] == "";
  }

  lemma NoSlashNoPath(s: string)
    requires '/' !in s
    ensures !IsCheckoutPath(s)
  {
    assert IndexOf(s, '/') == |s|;
  }

  /** Only the characters at the ends and the absence of slashes matter. */
  lemma NoSlashNoCheckout(u: string)
    requires u != "" && u[0] == '$' && u[|u| - 1] == '}' && '/' !in u
    ensures !IsCheckoutUses(u)
  {
    TrimNothing(u);
    assert "https://"[0] == 'h' && "http://"[0] == 'h';
    NoSlashNoPath(u[..IndexOf(u, '@')]);
  }

  lemma PlainChars(k: Key)
    requires '/' !in k.text
    ensures var u := Plain(k); u != "" && u[0] == '$' && u[|u| - 1] == '}' && '/' !in u
  {
  }

  lemma PlainIsNoCheckout(k: Key)
    requires k in KEYS
    ensures !IsCheckoutUses(Plain(k))
  {
    PatternKeys();
    KeyHasNoBraces(KEYS, k);
    PlainChars(k);
    NoSlashNoCheckout(Plain(k));
  }

  lemma NameChars()
    ensures '/' !in "actions" && '@' !in "actions" && '/' !in "checkout" && '@' !in "checkout"
  {
  }

  lemma PathIsCheckout(owner: string, name: string)
    requires owner == "actions" && name == "checkout"
    ensures IsCheckoutPath(owner + ['/'] + name)
  {
    NameChars();
    TwoSegments(owner, name);
  }

  lemma PathChars(owner: string, name: string)
    requires owner == "actions" && name == "checkout"
    ensures var path := owner + ['/'] + name;
      '@' !in path && path[|path| - 1] == 't'
  {
    NameChars();
    var path := owner + ['/'] + name;
    assert path[|path| - 1] == name[|name| - 1];
  }

  lemma Joined(scheme: string, h: string, path: string)
    ensures scheme + h + "/" + path == scheme + (h + ['/'] + path)
  {
  }

  lemma RepositoryIsCheckout(h: string)
    requires '/' !in h
    ensures IsCheckoutUses("https://" + h + "/" + CHECKOUT_REPOSITORY)
  {
    PathIsCheckout("actions", "checkout");
    PathChars("actions", "checkout");
    HostIgnored(true, h, CHECKOUT_REPOSITORY);
    Joined("https://", h, CHECKOUT_REPOSITORY);
  }

  function UsesRepository(): Tree {
    Tree(Mapping, "!!map", "", 0, [Str("uses"), Str(Plain(KEYS[2]))])
  }

  /** A step that uses the repository itself, of a repository named actions/checkout, is a
      checkout step only after normalisation. */
  lemma {:induction false} LateStep(h: string)
    requires '/' !in h
    ensures LateCheckout(Site("https://" + h, CHECKOUT_REPOSITORY), UsesRepository())
  {
    var site := Site("https://" + h, CHECKOUT_REPOSITORY);
    var k := KEYS[2];
    var step := UsesRepository();
    RewriteFind(site, step, "uses");
    RewriteFind(site, step, "with");
    RewriteShape(site, step);
    var uses := step.content[1];
    assert FindFrom(step.content, "uses", 0) == 1 && FindFrom(step.content, "with", 0) == 2;
    RewriteShape(site, uses);
    RepositoryExpr(site, k);
    PlainIsNoCheckout(k);
    RepositoryIsCheckout(h);
  }

  /** The root of a workflow with one job of one step. */
  function OneStepWorkflow(step: Tree): Tree {
    var steps := Tree(Sequence, "!!seq", "", 0, [step]);
    var job := Tree(Mapping, "!!map", "", 0, [Str("steps"), steps]);
    var jobs := Tree(Mapping, "!!map", "", 0, [Str("build"), job]);
    Tree(Mapping, "!!map", "", 0, [Str("jobs"), jobs])
  }

  lemma PairFound(key: string, v: Tree)
    ensures Find(Tree(Mapping, "!!map", "", 0, [Str(key), v]), key) == Some(1)
  {
    assert [] + [Str(key), v] == [Str(key), v];
    FindFromAppended([], key, 0, v);
  }

  lemma StepFound(step: Tree)
    requires Paired(step)
    ensures var top := OneStepWorkflow(step);
      top.kind.Mapping? && Paired(top) && IsStep(top, 1, 0) && StepAt(top, 1, 0) == step
  {
    var steps := Tree(Sequence, "!!seq", "", 0, [step]);
    var job := Tree(Mapping, "!!map", "", 0, [Str("steps"), steps]);
    var jobs := Tree(Mapping, "!!map", "", 0, [Str("build"), job]);
    PairFound("steps", steps);
    PairFound("jobs", jobs);
    assert Paired(steps) && Paired(job) && Paired(jobs);
  }

  lemma BraceFreeJoin(a: string, b: string)
    requires NoBraces(a) && NoBraces(b)
    ensures NoBraces(a + b)
  {
  }

  lemma BraceFreeScheme()
    ensures NoBraces("https://") && ':' in "https://"
  {
    assert "https://"[5] == ':';
  }

  lemma BraceFreeRepository()
    ensures NoBraces(CHECKOUT_REPOSITORY)
  {
    BraceFreeJoin("actions", ['/']);
    BraceFreeJoin("actions" + ['/'], "checkout");
  }

  lemma GoodUrl(scheme: string, h: string, repository: string)
    requires NoBraces(scheme) && ':' in scheme && NoBraces(h) && NoBraces(repository)
    ensures GoodSite(Site(scheme + h, repository))
  {
    BraceFreeJoin(scheme, h);
    ColonIsEnough(Site(scheme + h, repository));
  }

  lemma GoodRepositorySite(h: string)
    requires NoBraces(h)
    ensures GoodSite(Site("https://" + h, CHECKOUT_REPOSITORY))
  {
    BraceFreeScheme();
    BraceFreeRepository();
    GoodUrl("https://", h, CHECKOUT_REPOSITORY);
  }

  /** A site for which normalisation is complete, and a well-formed payload whose second
      rewrite differs from its first. */
  ghost predicate MovesTwice(site: Site, top: Tree) {
    GoodSite(site) && top.kind.Mapping? && Paired(top) && Pass(site, Pass(site, top)) != Pass(site, top)
  }

  lemma LateWorkflow(site: Site, step: Tree)
    requires GoodSite(site) && Paired(step) && LateCheckout(site, step)
    ensures MovesTwice(site, OneStepWorkflow(step))
  {
    StepFound(step);
    LateStepMoves(site, OneStepWorkflow(step), 1, 0);
  }

  lemma UsesPaired()
    ensures Paired(UsesRepository())
  {
  }

  /** For every host, rewriting the rewritten payload of that step changes it again. */
  lemma LateCheckoutWitness(h: string)
    requires NoBraces(h) && '/' !in h
    ensures MovesTwice(Site("https://" + h, CHECKOUT_REPOSITORY), OneStepWorkflow(UsesRepository()))
  {
    LateStep(h);
    GoodRepositorySite(h);
    UsesPaired();
    LateWorkflow(Site("https://" + h, CHECKOUT_REPOSITORY), UsesRepository());
  }
}
