/** What checkout injection does to a whole workflow (internal/south/payload.go). */
module PayloadInject {
  import opened Wrappers
  import opened Payload
  import opened PayloadPass

  /** A checkout step whose `with` is absent or a mapping. */
  predicate Injectable(step: Tree) {
    IsCheckoutStep(step) && (Find(step, "with").Some? ==> step.content[Find(step, "with").value].kind.Mapping?)
  }

  /** `b` is `a` with the input set: the first one there is, or a new one at the end. */
  predicate InputSet(url: string, a: Tree, b: Tree) {
    && b == a.(content := b.content) && b.kind.Mapping? && HasInput(b, SERVER_INPUT, url)
    && (match Find(a, SERVER_INPUT)
        case Some(v) => |b.content| == |a.content| && KeepsPlaces(a.content, b.content, v)
        case None => b.content == a.content + [Str(SERVER_INPUT), Str(url)])
  }

  /** What injection promises of one step. */
  predicate StepDone(url: string, a: Tree, b: Tree) {
    if !Injectable(a) then b == a
    else
      && b == a.(content := b.content)
      && (match Find(a, "with")
          case Some(w) =>
            |b.content| == |a.content| && KeepsPlaces(a.content, b.content, w)
            && Find(b, "with") == Some(w) && InputSet(url, a.content[w], b.content[w])
          case None =>
            && |b.content| == |a.content| + 2 && b.content[..|a.content|] == a.content
            && Find(b, "with") == Some(|a.content| + 1)
            && b.content[|a.content| + 1].kind.Mapping? && HasInput(b.content[|a.content| + 1], SERVER_INPUT, url))
  }

  lemma {:induction false} OneStep(url: string, step: Tree)
    requires Paired(step)
    ensures StepDone(url, step, InjectStep(url, step))
  {
    if IsCheckoutStep(step) {
      match Find(step, "with")
      case None => AppendedWith(step, SERVER_INPUT, url);
      case Some(w) =>
        assert Paired(step.content[w]);
        if step.content[w].kind.Mapping? {
          UpdatedWith(step, SERVER_INPUT, url, w);
          WithInputSpec(step.content[w], SERVER_INPUT, url);
        }
    }
  }

  /** The block a checkout step without `with` gets, node by node. */
  lemma NewBlock(url: string, step: Tree)
    requires IsCheckoutStep(step) && Find(step, "with").None?
    ensures InjectStep(url, step) == step.(content := step.content +
              [Tree(Scalar, "!!str", "with", 0, []),
               Tree(Mapping, "!!map", "", 0,
                    [Tree(Scalar, "!!str", "github-server-url", 0, []), Tree(Scalar, "!!str", url, 0, [])])])
  {
  }

  /** The input a `with` mapping gets, or the value its first such input gets. */
  lemma NewInput(url: string, step: Tree, w: nat)
    requires IsCheckoutStep(step) && Find(step, "with") == Some(w) && step.content[w].kind.Mapping?
    ensures var block, block' := step.content[w], InjectStep(url, step).content[w];
      match Find(block, "github-server-url")
      case None => block'.content == block.content +
                     [Tree(Scalar, "!!str", "github-server-url", 0, []), Tree(Scalar, "!!str", url, 0, [])]
      case Some(v) => block'.content[v] == (if block.content[v].value == url then block.content[v]
                                            else Tree(Scalar, "!!str", url, 0, []))
  {
  }

  /** Same node but for child `at`. */
  predicate OnlyChild(a: Tree, b: Tree, at: nat) {
    b == a.(content := b.content) && |b.content| == |a.content| && KeepsPlaces(a.content, b.content, at)
  }

  /** Same node and same keys. */
  predicate OnlyValues(a: Tree, b: Tree) {
    b == a.(content := b.content) && |b.content| == |a.content|
    && forall i :: 0 <= i < |a.content| && i % 2 == 0 ==> b.content[i] == a.content[i]
  }

  /** Nothing of a job but the contents of its step list changes. */
  predicate JobFrame(a: Tree, b: Tree) {
    if !a.kind.Mapping? || Find(a, "steps").None? then b == a
    else
      var v := Find(a, "steps").value;
      && OnlyChild(a, b, v) && b.content[v] == a.content[v].(content := b.content[v].content)
      && |b.content[v].content| == |a.content[v].content|
      && (!a.content[v].kind.Sequence? ==> b.content[v] == a.content[v])
  }

  /** Nothing outside the step lists of the jobs changes. */
  predicate TopFrame(a: Tree, b: Tree) {
    if Find(a, "jobs").None? then b == a
    else
      var v := Find(a, "jobs").value;
      && OnlyChild(a, b, v)
      && (if !a.content[v].kind.Mapping? then b.content[v] == a.content[v]
          else OnlyValues(a.content[v], b.content[v]) &&
               forall i :: 0 <= i < |a.content[v].content| && i % 2 == 1 ==>
                   JobFrame(a.content[v].content[i], b.content[v].content[i]))
  }

  lemma JobFramed(url: string, job: Tree)
    ensures JobFrame(job, InjectJob(url, job))
  {
  }

  lemma TopFramed(url: string, top: Tree)
    ensures TopFrame(top, Inject(url, top))
  {
    if Find(top, "jobs").Some? && top.content[Find(top, "jobs").value].kind.Mapping? {
      var jobs := top.content[Find(top, "jobs").value];
      forall i | 0 <= i < |jobs.content| && i % 2 == 1
        ensures JobFrame(jobs.content[i], InjectJobs(url, jobs).content[i])
      {
        JobFramed(url, jobs.content[i]);
      }
    }
  }

  /** After injection every checkout step whose `with` is absent or a mapping has the URL as
      its first server-URL input; inside those blocks all other pairs keep their places;
      every other step and everything outside the step lists is as it was; and the tree
      differs exactly when some step does. */
  lemma InjectionMeetsSpec(url: string, top: Tree)
    requires top.kind.Mapping? && Paired(top)
    ensures var top' := Inject(url, top);
      && TopFrame(top, top')
      && (forall i, j :: IsStep(top', i, j) <==> IsStep(top, i, j))
      && (forall i, j :: IsStep(top, i, j) && IsStep(top', i, j) ==>
          StepDone(url, StepAt(top, i, j), StepAt(top', i, j)))
      && (top' != top <==>
          exists i, j :: IsStep(top, i, j) && IsStep(top', i, j) && StepAt(top', i, j) != StepAt(top, i, j))
  {
    var top' := Inject(url, top);
    TopFramed(url, top);
    InjectFixedIff(url, top);
    forall i: nat, j: nat
      ensures IsStep(top', i, j) <==> IsStep(top, i, j)
      ensures IsStep(top, i, j) ==>
                StepAt(top', i, j) == InjectStep(url, StepAt(top, i, j))
                    && StepDone(url, StepAt(top, i, j), StepAt(top', i, j))
    {
      StepsInjected(url, top, i, j);
      if IsStep(top, i, j) {
        StepPaired(top, i, j);
        OneStep(url, StepAt(top, i, j));
      }
    }
  }
}
