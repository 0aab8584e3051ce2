/** What the rewriter leaves alone (internal/south/payload.go). */
module PayloadFrame {
  import opened Wrappers
  import opened Expressions
  import opened Normalise
  import opened Payload
  import opened PayloadPass

  /** How deep in the workflow structure a node sits. */
  datatype Level = Root | Jobs | Job | Steps | Step | Plain

  function ChildLevel(level: Level, t: Tree, i: nat): Level {
    match level
    case Root => if Find(t, "jobs") == Some(i) then Jobs else Plain
    case Jobs => if t.kind.Mapping? then Job else Plain
    case Job => if t.kind.Mapping? && Find(t, "steps") == Some(i) then Steps else Plain
    case Steps => if t.kind.Sequence? then Step else Plain
    case _ => Plain
  }

  /** Same node up to its children, but for the value of a scalar that held an expression. */
  ghost predicate SameHead(site: Site, a: Tree, b: Tree) {
    && b.kind == a.kind && b.tag == a.tag && b.extra == a.extra
    && (b.value != a.value ==> a.kind.Scalar? && !Clean(KEYS, site, a.value))
  }

  /** `b` differs from `a` only in scalar values that held an expression to replace, and in
      the `with` blocks of checkout steps: everywhere else kinds, keys, order and lengths
      are kept. */
  ghost predicate Framed(site: Site, level: Level, a: Tree, b: Tree)
    decreases a
  {
    && SameHead(site, a, b)
    && (if level.Step? && IsCheckoutStep(a)
        then
          && |b.content| == (if Find(a, "with").None? then |a.content| + 2 else |a.content|)
          && (Find(a, "with").None? ==> b.content[|a.content|] == Str("with"))
          && (forall i :: 0 <= i < |a.content| && Find(a, "with") != Some(i) ==>
                if i % 2 == 0 then b.content[i] == a.content[i] else Framed(site, Plain, a.content[i], b.content[i]))
        else
          && |b.content| == |a.content|
          && (forall i :: 0 <= i < |a.content| ==>
                if a.kind.Mapping? && i % 2 == 0 then b.content[i] == a.content[i]
                else Framed(site, ChildLevel(level, a, i), a.content[i], b.content[i])))
  }

  /** A scalar that changes held an expression to replace. */
  lemma RewriteHead(site: Site, t: Tree)
    ensures SameHead(site, t, RewriteTree(site, t))
  {
    RewriteShape(site, t);
    if t.kind.Scalar? && Clean(KEYS, site, t.value) {
      SkipIsSafe(site, t.value);
      CleanIsFixed(KEYS, site, t.value);
    }
  }

  lemma {:induction false} FramedSame(site: Site, level: Level, t: Tree)
    requires level.Plain?
    ensures Framed(site, level, t, t)
    decreases t
  {
    forall i | 0 <= i < |t.content| ensures Framed(site, ChildLevel(level, t, i), t.content[i], t.content[i]) {
      FramedSame(site, Plain, t.content[i]);
    }
  }

  ghost predicate PartFramed(site: Site, level: Level, a: Tree, b: Tree, i: nat)
    requires i < |a.content| == |b.content|
  {
    if a.kind.Mapping? && i % 2 == 0 then b.content[i] == a.content[i]
    else Framed(site, ChildLevel(level, a, i), a.content[i], b.content[i])
  }

  /** Framing of a node that is no checkout step, child by child. */
  lemma LevelFramed(site: Site, level: Level, a: Tree, b: Tree)
    requires SameHead(site, a, b) && |b.content| == |a.content| && !(level.Step? && IsCheckoutStep(a))
    requires forall i :: 0 <= i < |a.content| ==> PartFramed(site, level, a, b, i)
    ensures Framed(site, level, a, b)
  {
    forall i | 0 <= i < |a.content|
      ensures if a.kind.Mapping? && i % 2 == 0 then b.content[i] == a.content[i]
              else Framed(site, ChildLevel(level, a, i), a.content[i], b.content[i])
    {
      assert PartFramed(site, level, a, b, i);
    }
  }

  lemma PlainPart(site: Site, a: Tree, b: Tree, i: nat)
    requires i < |a.content| == |b.content|
    requires if a.kind.Mapping? && i % 2 == 0 then b.content[i] == a.content[i]
             else Framed(site, Plain, a.content[i], b.content[i])
    ensures PartFramed(site, Plain, a, b, i)
  {
    assert ChildLevel(Plain, a, i) == Plain;
  }

  /** Normalisation alone changes only scalars that held an expression. */
  lemma {:induction false} RewriteFramed(site: Site, t: Tree)
    ensures Framed(site, Plain, t, RewriteTree(site, t))
    decreases t, 0
  {
    RewriteHead(site, t);
    RewriteShape(site, t);
    var t' := RewriteTree(site, t);
    forall i | 0 <= i < |t.content|
      ensures PartFramed(site, Plain, t, t', i)
    {
      ChildFramed(site, t, i);
      PlainPart(site, t, t', i);
    }
    LevelFramed(site, Plain, t, t');
  }

  lemma {:induction false} ChildFramed(site: Site, t: Tree, i: nat)
    requires i < |t.content| == |RewriteTree(site, t).content|
    ensures var c := RewriteTree(site, t).content[i];
      if t.kind.Mapping? && i % 2 == 0 then c == t.content[i] else Framed(site, Plain, t.content[i], c)
    decreases t.content[i], 1
  {
    RewriteShape(site, t);
    if t.kind.Scalar? {
      FramedSame(site, Plain, t.content[i]);
    } else if !(t.kind.Mapping? && i % 2 == 0) {
      RewriteFramed(site, t.content[i]);
    }
  }

  /** A node none of whose children has a level of its own is framed as a plain one. */
  lemma PlainLevel(site: Site, level: Level, a: Tree, b: Tree)
    requires Framed(site, Plain, a, b) && !(level.Step? && IsCheckoutStep(a))
    requires forall i :: 0 <= i < |a.content| ==> ChildLevel(level, a, i).Plain?
    ensures Framed(site, level, a, b)
  {
    forall i | 0 <= i < |a.content| ensures PartFramed(site, level, a, b, i) {
      assert ChildLevel(level, a, i) == Plain == ChildLevel(Plain, a, i);
    }
    LevelFramed(site, level, a, b);
  }

  /** Where an injected step differs from the original. */
  lemma InjectedPlaces(url: string, step: Tree)
    requires Paired(step) && IsCheckoutStep(step)
    ensures var step1 := InjectStep(url, step);
      && step1 == step.(content := step1.content)
      && |step1.content| == (if Find(step, "with").None? then |step.content| + 2 else |step.content|)
      && (Find(step, "with").None? ==> step1.content[|step.content|] == Str("with"))
      && (forall i :: 0 <= i < |step.content| && Find(step, "with") != Some(i) ==> step1.content[i] == step.content[i])
  {
    if Find(step, "with").Some? {
      SameUpdate(step, Find(step, "with").value, step.content[Find(step, "with").value]);
    }
  }

  lemma {:induction false} StepFramed(site: Site, step: Tree)
    requires Paired(step)
    ensures Framed(site, Step, step, RewriteTree(site, InjectStep(site.url, step)))
  {
    var step1 := InjectStep(site.url, step);
    RewriteHead(site, step1);
    RewriteShape(site, step1);
    if IsCheckoutStep(step) {
      InjectedPlaces(site.url, step);
      forall i | 0 <= i < |step.content| && Find(step, "with") != Some(i) && i % 2 == 1
        ensures Framed(site, Plain, step.content[i], RewriteTree(site, step1).content[i])
      {
        RewriteFramed(site, step.content[i]);
      }
    } else {
      RewriteFramed(site, step);
      PlainLevel(site, Step, step, RewriteTree(site, step));
    }
  }

  lemma {:induction false} StepsFramed(site: Site, steps: Tree)
    requires Paired(steps)
    ensures Framed(site, Steps, steps, RewriteTree(site, InjectSteps(site.url, steps)))
  {
    var steps1 := InjectSteps(site.url, steps);
    RewriteShape(site, steps1);
    if steps.kind.Sequence? {
      RewriteHead(site, steps1);
      forall i | 0 <= i < |steps.content|
        ensures Framed(site, Step, steps.content[i], RewriteTree(site, steps1).content[i])
      {
        assert Paired(steps.content[i]);
        StepFramed(site, steps.content[i]);
      }
    } else {
      RewriteFramed(site, steps);
      PlainLevel(site, Steps, steps, RewriteTree(site, steps));
    }
  }

  lemma JobPart(site: Site, job: Tree, i: nat)
    requires Paired(job) && i < |job.content|
    requires job.kind.Mapping? && Find(job, "steps").Some?
    ensures var job2 := RewriteTree(site, InjectJob(site.url, job));
      |job2.content| == |job.content| && PartFramed(site, Job, job, job2, i)
  {
    RewriteShape(site, InjectJob(site.url, job));
    if Find(job, "steps") == Some(i) {
      StepsFramed(site, job.content[i]);
    } else if i % 2 == 1 {
      RewriteFramed(site, job.content[i]);
    }
  }

  lemma {:induction false} JobFramed(site: Site, job: Tree)
    requires Paired(job)
    ensures Framed(site, Job, job, RewriteTree(site, InjectJob(site.url, job)))
  {
    var job1 := InjectJob(site.url, job);
    var job2 := RewriteTree(site, job1);
    RewriteShape(site, job1);
    if job.kind.Mapping? && Find(job, "steps").Some? {
      RewriteHead(site, job1);
      forall i | 0 <= i < |job.content| ensures PartFramed(site, Job, job, job2, i) {
        JobPart(site, job, i);
      }
      LevelFramed(site, Job, job, job2);
    } else {
      RewriteFramed(site, job);
      PlainLevel(site, Job, job, job2);
    }
  }

  lemma {:induction false} JobsFramed(site: Site, jobs: Tree)
    requires Paired(jobs)
    ensures Framed(site, Jobs, jobs, RewriteTree(site, InjectJobs(site.url, jobs)))
  {
    var jobs1 := InjectJobs(site.url, jobs);
    RewriteShape(site, jobs1);
    if jobs.kind.Mapping? {
      RewriteHead(site, jobs1);
      forall i | 0 <= i < |jobs.content| && i % 2 == 1
        ensures Framed(site, Job, jobs.content[i], RewriteTree(site, jobs1).content[i])
      {
        assert Paired(jobs.content[i]);
        JobFramed(site, jobs.content[i]);
      }
    } else {
      RewriteFramed(site, jobs);
      PlainLevel(site, Jobs, jobs, RewriteTree(site, jobs));
    }
  }

  /** One pass over a payload changes nothing but scalar values that held a server-URL
      expression and the `with` blocks of checkout steps. */
  lemma {:induction false} PassFramed(site: Site, top: Tree)
    requires Paired(top) && top.kind.Mapping?
    ensures Framed(site, Root, top, Pass(site, top))
  {
    var top1 := Inject(site.url, top);
    RewriteShape(site, top1);
    RewriteHead(site, top1);
    forall i | 0 <= i < |top.content| && i % 2 == 1
      ensures Framed(site, ChildLevel(Root, top, i), top.content[i], Pass(site, top).content[i])
    {
      assert Paired(top.content[i]);
      if Find(top, "jobs") == Some(i) {
        JobsFramed(site, top.content[i]);
      } else {
        RewriteFramed(site, top.content[i]);
      }
    }
  }
}
