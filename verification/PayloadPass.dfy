/** What one and two passes over a payload tree do (internal/south/payload.go). */
module PayloadPass {
  import opened Wrappers
  import opened Expressions
  import opened Normalise
  import opened Payload

  /** Sites for which normalisation is complete. */
  ghost predicate GoodSite(site: Site) {
    Harmless(site) && !Embeddable(KEYS, site)
  }

  // ---- normalisation as a tree transformation ----

  lemma RewriteShape(site: Site, t: Tree)
    ensures var t' := RewriteTree(site, t);
      && t'.kind == t.kind && t'.tag == t.tag && t'.extra == t.extra && |t'.content| == |t.content|
      && (!t.kind.Scalar? ==> t'.value == t.value)
      && (t.kind.Scalar? ==> t'.value == RewriteScalar(site, t.value))
      && (forall i :: 0 <= i < |t.content| && (t.kind.Scalar? || (t.kind.Mapping? && i % 2 == 0)) ==>
          t'.content[i] == t.content[i])
      && (forall i :: 0 <= i < |t.content| && !t.kind.Scalar? && (t.kind.Mapping? ==> i % 2 == 1) ==>
            t'.content[i] == RewriteTree(site, t.content[i]))
  {
  }

  /** Keys are never rewritten, so every lookup finds the same place. */
  lemma RewriteFind(site: Site, t: Tree, key: string)
    requires t.kind.Mapping?
    ensures Find(RewriteTree(site, t), key) == Find(t, key)
  {
    RewriteShape(site, t);
    FindSame(RewriteTree(site, t), t, key);
  }

  lemma {:induction false} RewritePaired(site: Site, t: Tree)
    requires Paired(t)
    ensures Paired(RewriteTree(site, t))
    decreases t
  {
    RewriteShape(site, t);
    forall i | 0 <= i < |t.content| ensures Paired(RewriteTree(site, t).content[i]) {
      assert Paired(t.content[i]);
      RewritePaired(site, t.content[i]);
    }
  }

  /** Normalising a normalised tree changes nothing. */
  lemma {:induction false} RewriteTwice(site: Site, t: Tree)
    requires GoodSite(site)
    ensures RewriteTree(site, RewriteTree(site, t)) == RewriteTree(site, t)
    decreases t
  {
    var u := RewriteTree(site, t);
    RewriteShape(site, t);
    RewriteShape(site, u);
    if t.kind.Scalar? {
      NormalisationIdempotent(site, t.value);
    }
    forall i | 0 <= i < |t.content|
      ensures RewriteTree(site, u).content[i] == u.content[i]
    {
      RewriteTwice(site, t.content[i]);
    }
    assert RewriteTree(site, u).content == u.content;
  }

  /** No scalar in a value position holds an expression that should have been replaced. */
  ghost predicate CleanTree(site: Site, t: Tree)
    decreases t
  {
    if t.kind.Scalar? then Clean(KEYS, site, t.value)
    else forall i :: 0 <= i < |t.content| && (t.kind.Mapping? ==> i % 2 == 1) ==> CleanTree(site, t.content[i])
  }

  lemma {:induction false} RewrittenIsClean(site: Site, t: Tree)
    requires GoodSite(site)
    ensures CleanTree(site, RewriteTree(site, t))
    decreases t
  {
    RewriteShape(site, t);
    if t.kind.Scalar? {
      NormalisationCompleteIff(site);
    } else {
      forall i | 0 <= i < |t.content| && (t.kind.Mapping? ==> i % 2 == 1)
        ensures CleanTree(site, RewriteTree(site, t).content[i])
      {
        RewrittenIsClean(site, t.content[i]);
      }
    }
  }

  lemma DirtyScalar(site: Site) returns (t: Tree)
    requires Harmless(site) && !GoodSite(site)
    ensures !CleanTree(site, RewriteTree(site, t))
  {
    NormalisationCompleteIff(site);
    var v :| !Clean(KEYS, site, RewriteScalar(site, v));
    t := Str(v);
    RewriteShape(site, t);
  }

  /** Normalisation is complete on every tree exactly for those sites. */
  lemma TreesCompleteIff(site: Site)
    requires Harmless(site)
    ensures (forall t :: CleanTree(site, RewriteTree(site, t))) <==> GoodSite(site)
  {
    if GoodSite(site) {
      forall t ensures CleanTree(site, RewriteTree(site, t)) {
        RewrittenIsClean(site, t);
      }
    } else {
      var t := DirtyScalar(site);
    }
  }

  /** So no expression is left in a payload after a pass. */
  lemma PassIsClean(site: Site, top: Tree)
    requires GoodSite(site)
    ensures CleanTree(site, Pass(site, top))
  {
    RewrittenIsClean(site, Inject(site.url, top));
  }

  /** The rewriter leaves a tree alone exactly when it is clean. */
  lemma {:induction false} TreeFixedIff(site: Site, t: Tree)
    requires GoodSite(site)
    ensures RewriteTree(site, t) == t <==> CleanTree(site, t)
    decreases t
  {
    RewriteShape(site, t);
    if t.kind.Scalar? {
      ChangedIff(site, t.value);
    } else {
      forall i | 0 <= i < |t.content| && (t.kind.Mapping? ==> i % 2 == 1)
        ensures RewriteTree(site, t).content[i] == t.content[i] <==> CleanTree(site, t.content[i])
      {
        TreeFixedIff(site, t.content[i]);
      }
      if CleanTree(site, t) {
        assert RewriteTree(site, t).content == t.content;
      }
    }
  }

  /** A scalar without a dollar sign is left alone; the site's own URL is one. */
  lemma UrlIsFixed(site: Site)
    requires Harmless(site)
    ensures RewriteScalar(site, site.url) == site.url
  {
    SkipIsSafe(site, site.url);
    forall i | 0 <= i < |site.url| ensures Match(KEYS, site.url[i..]).None? {
      assert site.url[i..][0] == site.url[i];
    }
    CleanIsFixed(KEYS, site, site.url);
  }

  // ---- steps ----

  /** injectCheckoutServerURL has nothing to do at this step. */
  predicate Settled(url: string, step: Tree) {
    IsCheckoutStep(step) ==>
      && Find(step, "with").Some?
      && var w := step.content[Find(step, "with").value];
         w.kind.Mapping? ==> HasInput(w, SERVER_INPUT, url)
  }

  lemma StepFixedIff(url: string, step: Tree)
    requires Paired(step)
    ensures InjectStep(url, step) == step <==> Settled(url, step)
  {
    if IsCheckoutStep(step) {
      match Find(step, "with")
      case None => AppendedWith(step, SERVER_INPUT, url);
      case Some(w) =>
        assert Paired(step.content[w]);
        if step.content[w].kind.Mapping? {
          UpdatedWith(step, SERVER_INPUT, url, w);
        }
    }
  }

  /** An injected block keeps its input through normalisation. */
  lemma InputSurvives(site: Site, w: Tree)
    requires Harmless(site) && w.kind.Mapping? && HasInput(w, SERVER_INPUT, site.url)
    ensures HasInput(RewriteTree(site, w), SERVER_INPUT, site.url)
  {
    RewriteFind(site, w, SERVER_INPUT);
    RewriteShape(site, w);
    var v := w.content[Find(w, SERVER_INPUT).value];
    RewriteShape(site, v);
    UrlIsFixed(site);
  }

  /** Where the `with` block of an injected checkout step is. */
  lemma StepWith(url: string, step: Tree) returns (w: nat)
    requires Paired(step) && IsCheckoutStep(step)
    ensures var step1 := InjectStep(url, step);
      && step1.kind.Mapping? && Find(step1, "with") == Some(w)
      && (step1.content[w].kind.Mapping? ==> HasInput(step1.content[w], SERVER_INPUT, url))
  {
    match Find(step, "with")
    case None =>
      w := |step.content| + 1;
      AppendedWith(step, SERVER_INPUT, url);
    case Some(v) =>
      w := v;
      assert Paired(step.content[v]);
      if step.content[v].kind.Mapping? {
        UpdatedWith(step, SERVER_INPUT, url, v);
      }
  }

  /** A checkout step is settled after one pass, even if normalisation changes its `uses`. */
  lemma {:induction false} CheckoutSettles(site: Site, step: Tree)
    requires Harmless(site) && Paired(step) && IsCheckoutStep(step)
    ensures Settled(site.url, RewriteTree(site, InjectStep(site.url, step)))
  {
    var step1 := InjectStep(site.url, step);
    var w := StepWith(site.url, step);
    RewriteShape(site, step1);
    RewriteFind(site, step1, "with");
    RewriteShape(site, step1.content[w]);
    if step1.content[w].kind.Mapping? {
      InputSurvives(site, step1.content[w]);
    }
  }

  /** Not a checkout step, but normalisation makes it one that needs an injection. */
  predicate LateCheckout(site: Site, step: Tree) {
    !IsCheckoutStep(step) && !Settled(site.url, RewriteTree(site, step))
  }

  lemma {:induction false} StepAfterPass(site: Site, step: Tree)
    requires Harmless(site) && Paired(step)
    ensures Settled(site.url, RewriteTree(site, InjectStep(site.url, step))) <==> !LateCheckout(site, step)
  {
    if IsCheckoutStep(step) {
      CheckoutSettles(site, step);
    }
  }

  lemma PairedUpdate(t: Tree, i: nat, c: Tree)
    requires Paired(t) && Paired(c) && i < |t.content|
    ensures Paired(t.(content := t.content[i := c]))
  {
    var all := t.content[i := c];
    forall j | 0 <= j < |all| ensures Paired(all[j]) {
      assert Paired(t.content[j]);
    }
  }

  lemma PairedAppend(t: Tree, c: Tree, d: Tree)
    requires Paired(t) && Paired(c) && Paired(d)
    ensures Paired(t.(content := t.content + [c, d]))
  {
    var all := t.content + [c, d];
    forall j | 0 <= j < |all| ensures Paired(all[j]) {
      assert j < |t.content| ==> Paired(t.content[j]);
    }
  }

  lemma WithInputPaired(w: Tree, input: string, value: string)
    requires Paired(w)
    ensures Paired(WithInput(w, input, value))
  {
    match Find(w, input)
    case None => PairedAppend(w, Str(input), Str(value));
    case Some(v) => PairedUpdate(w, v, Str(value));
  }

  lemma InjectStepPaired(url: string, step: Tree)
    requires Paired(step)
    ensures Paired(InjectStep(url, step))
  {
    if IsCheckoutStep(step) {
      match Find(step, "with")
      case None =>
        var block := Tree(Mapping, "!!map", "", 0, []);
        PairedAppend(block, Str(SERVER_INPUT), Str(url));
        assert block.(content := block.content + [Str(SERVER_INPUT), Str(url)])
            == block.(content := [Str(SERVER_INPUT), Str(url)]);
        PairedAppend(step, Str("with"), block.(content := [Str(SERVER_INPUT), Str(url)]));
      case Some(w) =>
        assert Paired(step.content[w]);
        WithInputPaired(step.content[w], SERVER_INPUT, url);
        PairedUpdate(step, w, WithInput(step.content[w], SERVER_INPUT, url));
    }
  }

  // ---- steps in their places ----

  predicate IsJob(jobs: Tree, i: nat) {
    jobs.kind.Mapping? && i < |jobs.content| && i % 2 == 1
  }

  /** `top` has a step number `j` in the job whose value is child `i` of `jobs`. */
  predicate IsStep(top: Tree, i: nat, j: nat) {
    && Find(top, "jobs").Some?
    && IsJob(top.content[Find(top, "jobs").value], i)
    && (var job := top.content[Find(top, "jobs").value].content[i];
        && job.kind.Mapping? && Find(job, "steps").Some?
        && job.content[Find(job, "steps").value].kind.Sequence?
        && j < |job.content[Find(job, "steps").value].content|)
  }

  function StepAt(top: Tree, i: nat, j: nat): Tree
    requires IsStep(top, i, j)
  {
    var job := top.content[Find(top, "jobs").value].content[i];
    job.content[Find(job, "steps").value].content[j]
  }

  lemma JobInjected(url: string, job: Tree)
    requires job.kind.Mapping? && Find(job, "steps").Some?
    ensures var v := Find(job, "steps").value;
      Find(InjectJob(url, job), "steps") == Some(v)
          && InjectJob(url, job).content[v] == InjectSteps(url, job.content[v])
  {
    FindSame(InjectJob(url, job), job, "steps");
  }

  lemma TopInjected(url: string, top: Tree)
    requires Find(top, "jobs").Some?
    ensures var v := Find(top, "jobs").value;
      Find(Inject(url, top), "jobs") == Some(v) && Inject(url, top).content[v] == InjectJobs(url, top.content[v])
  {
    FindSame(Inject(url, top), top, "jobs");
  }

  /** Injection keeps every step in its place. */
  lemma StepsInjected(url: string, top: Tree, i: nat, j: nat)
    requires top.kind.Mapping?
    ensures IsStep(Inject(url, top), i, j) <==> IsStep(top, i, j)
    ensures IsStep(top, i, j) ==> StepAt(Inject(url, top), i, j) == InjectStep(url, StepAt(top, i, j))
  {
    if Find(top, "jobs").Some? {
      TopInjected(url, top);
      var jobs := top.content[Find(top, "jobs").value];
      if jobs.kind.Mapping? && i < |jobs.content| && i % 2 == 1 && jobs.content[i].kind.Mapping?
         && Find(jobs.content[i], "steps").Some? {
        JobInjected(url, jobs.content[i]);
      }
    }
  }

  lemma JobRewritten(site: Site, job: Tree, j: nat)
    ensures var job' := RewriteTree(site, job);
      && job'.kind == job.kind
      && (job.kind.Mapping? ==> Find(job', "steps") == Find(job, "steps"))
      && (job.kind.Mapping? && Find(job, "steps").Some? ==>
            var v := Find(job, "steps").value;
            && job'.content[v].kind == job.content[v].kind && |job'.content[v].content| == |job.content[v].content|
            && (job.content[v].kind.Sequence? && j < |job.content[v].content| ==>
                  job'.content[v].content[j] == RewriteTree(site, job.content[v].content[j])))
  {
    RewriteShape(site, job);
    if job.kind.Mapping? && Find(job, "steps").Some? {
      RewriteFind(site, job, "steps");
      RewriteShape(site, job.content[Find(job, "steps").value]);
    } else if job.kind.Mapping? {
      RewriteFind(site, job, "steps");
    }
  }

  /** So does normalisation. */
  lemma RewriteSteps(site: Site, top: Tree, i: nat, j: nat)
    requires top.kind.Mapping?
    ensures IsStep(RewriteTree(site, top), i, j) <==> IsStep(top, i, j)
    ensures IsStep(top, i, j) ==> StepAt(RewriteTree(site, top), i, j) == RewriteTree(site, StepAt(top, i, j))
  {
    RewriteFind(site, top, "jobs");
    RewriteShape(site, top);
    if Find(top, "jobs").Some? {
      var jobs := top.content[Find(top, "jobs").value];
      RewriteShape(site, jobs);
      if jobs.kind.Mapping? && i < |jobs.content| && i % 2 == 1 {
        JobRewritten(site, jobs.content[i], j);
      }
    }
  }

  lemma PassSteps(site: Site, top: Tree, i: nat, j: nat)
    requires top.kind.Mapping?
    ensures IsStep(Pass(site, top), i, j) <==> IsStep(top, i, j)
    ensures IsStep(top, i, j) ==>
              StepAt(Pass(site, top), i, j) == RewriteTree(site, InjectStep(site.url, StepAt(top, i, j)))
  {
    StepsInjected(site.url, top, i, j);
    RewriteSteps(site, Inject(site.url, top), i, j);
  }

  lemma JobFixed(url: string, top: Tree, i: nat)
    requires Find(top, "jobs").Some?
    requires var jobs := top.content[Find(top, "jobs").value]; jobs.kind.Mapping? && i < |jobs.content| && i % 2 == 1
    requires forall j :: IsStep(top, i, j) ==> InjectStep(url, StepAt(top, i, j)) == StepAt(top, i, j)
    ensures var job := top.content[Find(top, "jobs").value].content[i]; InjectJob(url, job) == job
  {
    var job := top.content[Find(top, "jobs").value].content[i];
    if job.kind.Mapping? && Find(job, "steps").Some? {
      var v := Find(job, "steps").value;
      var steps := job.content[v];
      if steps.kind.Sequence? {
        forall j | 0 <= j < |steps.content| ensures InjectStep(url, steps.content[j]) == steps.content[j] {
          assert IsStep(top, i, j) && StepAt(top, i, j) == steps.content[j];
        }
        assert InjectSteps(url, steps).content == steps.content;
      }
      SameUpdate(job, v, InjectSteps(url, steps));
    }
  }

  /** Injection changes the tree exactly when it changes some step. */
  lemma InjectFixedIff(url: string, top: Tree)
    requires top.kind.Mapping?
    ensures Inject(url, top) == top <==>
              forall i, j :: IsStep(top, i, j) ==> InjectStep(url, StepAt(top, i, j)) == StepAt(top, i, j)
  {
    if Inject(url, top) == top {
      forall i, j | IsStep(top, i, j) ensures InjectStep(url, StepAt(top, i, j)) == StepAt(top, i, j) {
        StepsInjected(url, top, i, j);
      }
    } else if Find(top, "jobs").Some? {
      var v := Find(top, "jobs").value;
      var jobs := top.content[v];
      if jobs.kind.Mapping?
        && forall i, j :: IsStep(top, i, j) ==> InjectStep(url, StepAt(top, i, j)) == StepAt(top, i, j)
      {
        forall i | 0 <= i < |jobs.content| && i % 2 == 1 ensures InjectJob(url, jobs.content[i]) == jobs.content[i] {
          JobFixed(url, top, i);
        }
        assert InjectJobs(url, jobs).content == jobs.content;
        SameUpdate(top, v, jobs);
      } else if !jobs.kind.Mapping? {
        SameUpdate(top, v, jobs);
      }
    }
  }

  lemma StepPaired(top: Tree, i: nat, j: nat)
    requires Paired(top) && IsStep(top, i, j)
    ensures Paired(StepAt(top, i, j))
  {
    var jobs := top.content[Find(top, "jobs").value];
    assert Paired(jobs);
    var job := jobs.content[i];
    assert Paired(job);
    assert Paired(job.content[Find(job, "steps").value]);
  }

  lemma StepSecond(site: Site, top: Tree, i: nat, j: nat)
    requires Harmless(site) && top.kind.Mapping? && Paired(top) && IsStep(top, i, j)
    ensures var again := RewriteTree(site, InjectStep(site.url, StepAt(top, i, j)));
      && Paired(again)
      && (InjectStep(site.url, again) == again <==> !LateCheckout(site, StepAt(top, i, j)))
  {
    var step := StepAt(top, i, j);
    StepPaired(top, i, j);
    InjectStepPaired(site.url, step);
    RewritePaired(site, InjectStep(site.url, step));
    StepFixedIff(site.url, RewriteTree(site, InjectStep(site.url, step)));
    StepAfterPass(site, step);
  }

  /** A second injection finds nothing to do exactly when normalisation made no step a
      checkout step that still needs one. */
  lemma SecondInjectIff(site: Site, top: Tree)
    requires Harmless(site) && top.kind.Mapping? && Paired(top)
    ensures Inject(site.url, Pass(site, top)) == Pass(site, top) <==>
              forall i, j :: IsStep(top, i, j) ==> !LateCheckout(site, StepAt(top, i, j))
  {
    var e := Pass(site, top);
    RewriteShape(site, Inject(site.url, top));
    InjectFixedIff(site.url, e);
    forall i: nat, j: nat
      ensures IsStep(e, i, j) <==> IsStep(top, i, j)
      ensures IsStep(top, i, j) ==>
                (InjectStep(site.url, StepAt(e, i, j)) == StepAt(e, i, j) <==> !LateCheckout(site, StepAt(top, i, j)))
    {
      PassSteps(site, top, i, j);
      if IsStep(top, i, j) {
        StepSecond(site, top, i, j);
      }
    }
  }

  // ---- main results ----

  /** The late checkout step itself differs after the second pass. */
  lemma {:induction false} LateStepMoves(site: Site, top: Tree, i: nat, j: nat)
    requires Harmless(site) && top.kind.Mapping? && Paired(top)
    requires IsStep(top, i, j) && LateCheckout(site, StepAt(top, i, j))
    ensures Pass(site, Pass(site, top)) != Pass(site, top)
  {
    var e := Pass(site, top);
    RewriteShape(site, Inject(site.url, top));
    PassSteps(site, top, i, j);
    PassSteps(site, e, i, j);
    StepSecond(site, top, i, j);
    CheckoutSettles(site, StepAt(e, i, j));
  }

  /** Rewriting a rewritten payload returns it unchanged, exactly when no step becomes a
      checkout step in need of an injection by having its `uses` value normalised. */
  lemma {:induction false} PassIdempotentIff(site: Site, top: Tree)
    requires GoodSite(site) && top.kind.Mapping? && Paired(top)
    ensures Pass(site, Pass(site, top)) == Pass(site, top) <==>
              forall i, j :: IsStep(top, i, j) ==> !LateCheckout(site, StepAt(top, i, j))
  {
    var e := Pass(site, top);
    SecondInjectIff(site, top);
    RewriteShape(site, Inject(site.url, top));
    if forall i, j :: IsStep(top, i, j) ==> !LateCheckout(site, StepAt(top, i, j)) {
      RewriteTwice(site, Inject(site.url, top));
    } else {
      var i: nat, j: nat :| IsStep(top, i, j) && LateCheckout(site, StepAt(top, i, j));
      LateStepMoves(site, top, i, j);
    }
  }

  /** The step's `uses` value, if it is a scalar, holds no expression to replace. */
  ghost predicate CleanUses(site: Site, step: Tree) {
    step.kind.Mapping? && Find(step, "uses").Some? ==>
      var uses := step.content[Find(step, "uses").value];
      uses.kind.Scalar? ==> Clean(KEYS, site, uses.value)
  }

  lemma CleanUsesStays(site: Site, step: Tree)
    requires CleanUses(site, step)
    ensures !LateCheckout(site, step)
  {
    RewriteShape(site, step);
    if step.kind.Mapping? {
      RewriteFind(site, step, "uses");
      if Find(step, "uses").Some? {
        var uses := step.content[Find(step, "uses").value];
        RewriteShape(site, uses);
        if uses.kind.Scalar? {
          SkipIsSafe(site, uses.value);
          CleanIsFixed(KEYS, site, uses.value);
        }
      }
    }
  }

  /** With no server-URL expression in any `uses` value the rewrite is idempotent. */
  lemma {:induction false} PassIdempotent(site: Site, top: Tree)
    requires GoodSite(site) && top.kind.Mapping? && Paired(top)
    requires forall i, j :: IsStep(top, i, j) ==> CleanUses(site, StepAt(top, i, j))
    ensures Pass(site, Pass(site, top)) == Pass(site, top)
  {
    forall i: nat, j: nat | IsStep(top, i, j) ensures !LateCheckout(site, StepAt(top, i, j)) {
      CleanUsesStays(site, StepAt(top, i, j));
    }
    PassIdempotentIff(site, top);
  }
}
