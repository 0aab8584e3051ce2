/** The payload rewriter on the heap: yaml.Node values edited in place
    (internal/south/payload.go), proved against the tree functions of Payload. */
module YamlNodes {
  import opened Wrappers
  import opened Normalise
  import opened Checkout
  import opened Payload
  import opened PayloadPass

  /** The first `n` trees are done, the rest are as they were. */
  ghost predicate Halfway(was: seq<Tree>, want: seq<Tree>, now: seq<Tree>, n: nat) {
    && |want| == |was| == |now|
    && forall i :: 0 <= i < |now| ==> now[i] == (if i < n then want[i] else was[i])
  }

  /** Going from `i` to `next` changes child `i` only. */
  lemma HalfwayStep(was: seq<Tree>, want: seq<Tree>, now: seq<Tree>, i: nat, next: nat)
    requires Halfway(was, want, now, i) && i < |now| && i < next <= i + 2
    requires next == i + 2 && i + 1 < |was| ==> want[i + 1] == was[i + 1]
    ensures now[i] == was[i]
    ensures Halfway(was, want, now[i := want[i]], next)
    ensures want[i] == was[i] ==> now[i := want[i]] == now
    ensures want[i] != was[i] ==> now[i := want[i]] != was
  {
    assert now[i := want[i]][i] == want[i];
  }

  /** What the loop of rewriteScalarValues is to make of the children from `i` on. */
  ghost predicate Wanted(site: Site, was: seq<Tree>, want: seq<Tree>, i: nat, step: nat)
    requires 1 <= step <= 2
    decreases |was| - i
  {
    && |want| == |was|
    && (i < |was| ==>
         && want[i] == RewriteTree(site, was[i])
         && (step == 2 && i + 1 < |was| ==> want[i + 1] == was[i + 1])
         && Wanted(site, was, want, i + step, step))
  }

  /** Child `i` of a rewritten mapping (`step` 2) or sequence, with the key after it. */
  ghost predicate ChildDone(site: Site, was: seq<Tree>, want: seq<Tree>, step: nat, i: nat) {
    i < |was| == |want| && (step == 2 ==> i % 2 == 1) ==>
      && want[i] == RewriteTree(site, was[i])
      && (step == 2 && i + 1 < |was| ==> want[i + 1] == was[i + 1])
  }

  lemma {:induction false} WantsFrom(site: Site, was: seq<Tree>, want: seq<Tree>, i: nat, step: nat)
    requires |want| == |was| && 1 <= step <= 2 && (step == 2 ==> i % 2 == 1)
    requires forall j: nat :: ChildDone(site, was, want, step, j)
    ensures Wanted(site, was, want, i, step)
    decreases |was| - i
  {
    if i < |was| {
      assert ChildDone(site, was, want, step, i);
      assert step == 2 ==> (i + 2) % 2 == 1;
      WantsFrom(site, was, want, i + step, step);
    }
  }

  lemma OneChildDone(site: Site, t: Tree, want: seq<Tree>, step: nat, i: nat)
    requires !t.kind.Scalar? && want == RewriteTree(site, t).content && step == (if t.kind.Mapping? then 2 else 1)
    ensures |want| == |t.content| && ChildDone(site, t.content, want, step, i)
  {
    RewriteShape(site, t);
    assert step == 2 && i % 2 == 1 ==> (i + 1) % 2 == 0;
  }

  lemma RewriteTreeWants(site: Site, t: Tree, want: seq<Tree>, i: nat)
    requires !t.kind.Scalar? && (t.kind.Mapping? ==> i % 2 == 1) && want == RewriteTree(site, t).content
    ensures Wanted(site, t.content, want, i, if t.kind.Mapping? then 2 else 1)
  {
    var step := if t.kind.Mapping? then 2 else 1;
    forall j: nat ensures ChildDone(site, t.content, want, step, j) {
      OneChildDone(site, t, want, step, j);
    }
    WantsFrom(site, t.content, want, i, step);
  }

  /** What the job loop is to make of the children from `i` on. */
  ghost predicate JobsWanted(url: string, was: seq<Tree>, want: seq<Tree>, i: nat)
    decreases |was| - i
  {
    && |want| == |was|
    && (i < |was| ==>
         && want[i] == Payload.InjectJob(url, was[i])
         && (i + 1 < |was| ==> want[i + 1] == was[i + 1])
         && JobsWanted(url, was, want, i + 2))
  }

  lemma {:induction false} InjectJobsWants(url: string, jobs: Tree, i: nat)
    requires jobs.kind.Mapping? && i % 2 == 1
    ensures JobsWanted(url, jobs.content, Payload.InjectJobs(url, jobs).content, i)
    decreases |jobs.content| - i
  {
    if i < |jobs.content| {
      InjectJobsWants(url, jobs, i + 2);
    }
  }

  class Node {
    var kind: Kind
    var tag: string
    var value: string
    var extra: int
    var content: seq<Node>

    /** The nodes of this subtree; no node has two parents. */
    ghost var repr: set<Node>

    ghost predicate Valid()
      reads this, repr
      decreases repr
    {
      && this in repr
      && (forall i :: 0 <= i < |content| ==>
            && content[i] in repr && content[i].repr <= repr && this !in content[i].repr
            && content[i].Valid())
      && (forall i, j :: 0 <= i < j < |content| ==> content[i].repr !! content[j].repr)
    }

    /** The tree this node spells out. */
    ghost function Spelled(): Tree
      requires Valid()
      reads this, repr
      decreases repr
    {
      Tree(kind, tag, value, extra,
           seq(|content|, i requires 0 <= i < |content| && Valid() reads this, repr => content[i].Spelled()))
    }

    constructor Scalar(s: string)
      ensures Valid() && fresh(repr) && Spelled() == Str(s)
    {
      kind, tag, value, extra, content := Kind.Scalar, "!!str", s, 0, [];
      repr := {this};
    }

    /** A fresh mapping holding one input. */
    constructor Block(key: Node, val: Node)
      requires key.Valid() && val.Valid() && key.repr !! val.repr
      ensures Valid() && fresh(this) && repr == {this} + key.repr + val.repr
      ensures Spelled() == Tree(Mapping, "!!map", "", 0, [key.Spelled(), val.Spelled()])
    {
      kind, tag, value, extra, content := Mapping, "!!map", "", 0, [key, val];
      repr := {this} + key.repr + val.repr;
    }

    /** mappingValue: the value node of the first scalar key `key`, or null. */
    method MappingValue(key: string) returns (v: Node?, ghost at: nat)
      requires Valid()
      ensures v == null <==> Find(Spelled(), key).None?
      ensures v != null ==> Find(Spelled(), key) == Some(at) && v == content[at]
    {
      var i := 0;
      ghost var t := Spelled();
      while i + 1 < |content|
        invariant i <= |content|
        invariant FindFrom(t.content, key, 0) == FindFrom(t.content, key, i)
        decreases |content| - i
      {
        assert t.content[i] == content[i].Spelled();
        if content[i].kind.Scalar? && content[i].value == key {
          return content[i + 1], i + 1;
        }
        i := i + 2;
      }
      return null, 0;
    }

    /** rewriteScalarValues with the normalising closure; `changed` as the closure sets it. */
    method RewriteScalarValues(site: Site) returns (changed: bool)
      requires Valid()
      modifies repr
      ensures Valid() && repr == old(repr)
      ensures Spelled() == RewriteTree(site, old(Spelled()))
      ensures changed <==> Spelled() != old(Spelled())
      decreases repr
    {
      ghost var want := RewriteTree(site, Spelled());
      if kind.Scalar? {
        var out := RewriteScalar(site, value);
        changed := out != value;
        value := out;
      } else if kind.Mapping? {
        RewriteTreeWants(site, Spelled(), want.content, 1);
        changed := RewriteEach(site, 1, 2, want.content);
      } else {
        RewriteTreeWants(site, Spelled(), want.content, 0);
        changed := RewriteEach(site, 0, 1, want.content);
      }
    }

    /** The loops of rewriteScalarValues: every `step`-th child from `first` on. */
    method RewriteEach(site: Site, first: nat, step: nat, ghost want: seq<Tree>) returns (changed: bool)
      requires Valid() && 1 <= step <= 2
      requires Wanted(site, Spelled().content, want, first, step)
      requires first == 1 && step == 2 && content != [] ==> want[0] == Spelled().content[0]
      requires first == step - 1
      modifies repr
      ensures Valid() && unchanged(this)
      ensures Spelled().content == want
      ensures changed <==> Spelled() != old(Spelled())
      decreases repr, 0
    {
      changed := false;
      var i := first;
      ghost var was := Spelled().content;
      while i < |content|
        invariant Valid() && unchanged(this)
        invariant first <= i && Wanted(site, was, want, i, step)
        invariant Halfway(was, want, Spelled().content, i)
        invariant changed <==> Spelled().content != was
        decreases |content| - i
      {
        HalfwayStep(was, want, Spelled().content, i, i + step);
        var c := RewriteChild(site, i, want[i]);
        changed := changed || c;
        i := i + step;
      }
    }

    /** One recursive call: only the child's tree changes. */
    method RewriteChild(site: Site, i: nat, ghost want: Tree) returns (c: bool)
      requires Valid() && i < |content| && want == RewriteTree(site, Spelled().content[i])
      modifies content[i].repr
      ensures Valid() && unchanged(this)
      ensures Spelled().content == old(Spelled().content[i := want])
      ensures c <==> want != old(Spelled().content[i])
      decreases repr, 0, 0
    {
      ghost var next := Spelled().content[i := want];
      c := content[i].RewriteScalarValues(site);
      assert Spelled().content == next;
    }

    // ---- checkout injection ----

    /** This node after child `at` has grown. */
    ghost method Absorb(at: nat)
      requires this in repr && at < |content|
      requires forall i :: 0 <= i < |content| ==> this !in content[i].repr && content[i].Valid()
      requires forall i :: 0 <= i < |content| && i != at ==> content[i].repr <= repr
      requires forall i, j :: 0 <= i < j < |content| ==> content[i].repr !! content[j].repr
      modifies this`repr
      ensures Valid() && repr == old(repr) + content[at].repr
      ensures forall i :: 0 <= i < |content| ==> Spelled().content[i] == old(content[i].Spelled())
    {
      repr := repr + content[at].repr;
    }

    /** Appends a key and its value. */
    method Append(key: Node, val: Node)
      requires Valid() && key.Valid() && val.Valid()
      requires key.repr !! repr && val.repr !! repr && key.repr !! val.repr
      modifies this
      ensures Valid() && repr == old(repr) + key.repr + val.repr
      ensures Spelled() == old(Spelled()).(content := old(Spelled()).content + [old(key.Spelled()), old(val.Spelled())])
    {
      ghost var next := Spelled().content + [key.Spelled(), val.Spelled()];
      content := content + [key, val];
      repr := repr + key.repr + val.repr;
      assert Spelled().content == next;
    }

    /** Replaces the node at `at`. */
    method Replace(at: nat, val: Node)
      requires Valid() && at < |content| && val.Valid() && val.repr !! repr
      modifies this
      ensures Valid() && repr == old(repr) + val.repr
      ensures Spelled() == old(Spelled()).(content := old(Spelled()).content[at := old(val.Spelled())])
    {
      ghost var next := Spelled().content[at := val.Spelled()];
      content := content[at := val];
      repr := repr + val.repr;
      assert Spelled().content == next;
    }

    /** The existing input at `v`: left alone if it has the value, replaced if not. */
    method SetInputAt(v: nat, val: string) returns (changed: bool)
      requires Valid() && v < |content|
      modifies this
      ensures Valid() && fresh(repr - old(repr)) && old(repr) <= repr
      ensures changed <==> old(Spelled()).content[v].value != val
      ensures Spelled() == if changed then old(Spelled()).(content := old(Spelled()).content[v := Str(val)])
              else old(Spelled())
    {
      ghost var t := Spelled();
      assert t.content[v] == content[v].Spelled();
      if content[v].value == val { return false; }
      var n := new Node.Scalar(val);
      Replace(v, n);
      return true;
    }

    method AddInput(input: string, val: string)
      requires Valid()
      modifies this
      ensures Valid() && fresh(repr - old(repr)) && old(repr) <= repr
      ensures Spelled() == old(Spelled()).(content := old(Spelled()).content + [Str(input), Str(val)])
    {
      var k := new Node.Scalar(input);
      var n := new Node.Scalar(val);
      Append(k, n);
    }

    /** setWithInput on an existing with block. */
    method SetInput(input: string, val: string) returns (changed: bool)
      requires Valid()
      modifies this
      ensures Valid() && fresh(repr - old(repr)) && old(repr) <= repr
      ensures Spelled() == WithInput(old(Spelled()), input, val)
      ensures changed <==> Spelled() != old(Spelled())
    {
      var i := 0;
      ghost var t := Spelled();
      while i + 1 < |content|
        invariant i <= |content| && unchanged(this)
        invariant FindFrom(t.content, input, 0) == FindFrom(t.content, input, i)
        decreases |content| - i
      {
        assert t.content[i] == content[i].Spelled();
        if content[i].kind.Scalar? && content[i].value == input {
          changed := SetInputAt(i + 1, val);
          SameUpdate(t, i + 1, Str(val));
          return;
        }
        i := i + 2;
      }
      AddInput(input, val);
      return true;
    }

    static method NewBlock(input: string, val: string) returns (block: Node)
      ensures block.Valid() && fresh(block.repr)
      ensures block.Spelled() == Tree(Mapping, "!!map", "", 0, [Str(input), Str(val)])
    {
      var ik := new Node.Scalar(input);
      var iv := new Node.Scalar(val);
      block := new Node.Block(ik, iv);
    }

    /** setWithInput on a step without `with`. */
    method AppendBlock(key: string, input: string, val: string)
      requires Valid()
      modifies this
      ensures Valid() && fresh(repr - old(repr)) && old(repr) <= repr
      ensures Spelled() == old(Spelled()).(content := old(Spelled()).content +
                             [Str(key), Tree(Mapping, "!!map", "", 0, [Str(input), Str(val)])])
    {
      var k := new Node.Scalar(key);
      var block := NewBlock(input, val);
      Append(k, block);
    }

    /** setWithInput on a step whose child `at` is a with mapping. */
    method SetInChild(ghost at: nat, with: Node, input: string, val: string, ghost want: Tree) returns (changed: bool)
      requires Valid() && at < |content| && with == content[at] && want == WithInput(Spelled().content[at], input, val)
      modifies repr
      ensures Valid() && fresh(repr - old(repr)) && old(repr) <= repr
      ensures Spelled() == old(Spelled()).(content := old(Spelled()).content[at := want])
      ensures changed <==> want != old(Spelled()).content[at]
    {
      ghost var next := Spelled().content[at := want];
      changed := with.SetInput(input, val);
      Absorb(at);
      assert Spelled().content == next;
    }

    /** setWithInput. */
    method SetWithInput(input: string, val: string) returns (changed: bool)
      requires Valid()
      modifies repr
      ensures Valid() && fresh(repr - old(repr)) && old(repr) <= repr
      ensures Spelled() == Payload.SetWithInput(old(Spelled()), input, val)
      ensures changed <==> Spelled() != old(Spelled())
    {
      ghost var t := Spelled();
      var with, at := MappingValue("with");
      if with == null {
        AppendBlock("with", input, val);
        return true;
      }
      assert t.content[at] == with.Spelled();
      if !with.kind.Mapping? { return false; }
      ghost var want := WithInput(t.content[at], input, val);
      changed := SetInChild(at, with, input, val, want);
      SameUpdate(t, at, want);
    }

    /** The body of the innermost loop of injectCheckoutServerURL. */
    method InjectStep(url: string) returns (injected: bool)
      requires Valid()
      modifies repr
      ensures Valid() && fresh(repr - old(repr)) && old(repr) <= repr
      ensures Spelled() == Payload.InjectStep(url, old(Spelled()))
      ensures injected <==> Spelled() != old(Spelled())
    {
      ghost var t := Spelled();
      if !kind.Mapping? { return false; }
      var uses, at := MappingValue("uses");
      if uses == null { return false; }
      assert t.content[at] == uses.Spelled();
      if !uses.kind.Scalar? || !IsCheckoutUses(uses.value) { return false; }
      injected := SetWithInput(SERVER_INPUT, url);
    }

    /** One round of the step loop. */
    method InjectStepAt(url: string, i: nat, ghost want: Tree) returns (injected: bool)
      requires Valid() && i < |content| && want == Payload.InjectStep(url, Spelled().content[i])
      modifies repr
      ensures Valid() && fresh(repr - old(repr)) && old(repr) <= repr && |content| == |old(content)|
      ensures Spelled() == old(Spelled()).(content := old(Spelled()).content[i := want])
      ensures injected <==> want != old(Spelled()).content[i]
    {
      ghost var next := Spelled().content[i := want];
      injected := content[i].InjectStep(url);
      Absorb(i);
      assert Spelled().content == next;
    }

    /** The step loop of injectCheckoutServerURL on the value of a job's `steps`. */
    method InjectSteps(url: string) returns (injected: bool)
      requires Valid()
      modifies repr
      ensures Valid() && fresh(repr - old(repr)) && old(repr) <= repr
      ensures Spelled() == Payload.InjectSteps(url, old(Spelled()))
      ensures injected <==> Spelled() != old(Spelled())
    {
      injected := false;
      if !kind.Sequence? { return; }
      ghost var t := Spelled();
      ghost var want := Payload.InjectSteps(url, t).content;
      var i := 0;
      while i < |content|
        invariant Valid() && fresh(repr - old(repr)) && old(repr) <= repr && |content| == |t.content|
        invariant Spelled() == t.(content := Spelled().content)
        invariant Halfway(t.content, want, Spelled().content, i)
        invariant injected <==> Spelled().content != t.content
        decreases |content| - i
      {
        HalfwayStep(t.content, want, Spelled().content, i, i + 1);
        var c := InjectStepAt(url, i, want[i]);
        injected := injected || c;
        i := i + 1;
      }
      assert Spelled().content == want;
    }

    /** Injection into the value node of one key, `steps` or `jobs`. */
    method InjectStepsAt(url: string, ghost at: nat, steps: Node) returns (injected: bool)
      requires Valid() && at < |content| && steps == content[at]
      modifies repr
      ensures Valid() && fresh(repr - old(repr)) && old(repr) <= repr
      ensures Spelled() == old(Spelled()).(content :=
              old(Spelled()).content[at := Payload.InjectSteps(url, old(Spelled()).content[at])])
      ensures injected <==> Spelled() != old(Spelled())
    {
      ghost var t := Spelled();
      ghost var want := Payload.InjectSteps(url, t.content[at]);
      injected := steps.InjectSteps(url);
      Absorb(at);
      assert Spelled().content == t.content[at := want];
      SameUpdate(t, at, want);
    }

    /** One round of the job loop, on the job's own node. */
    method InjectJob(url: string) returns (injected: bool)
      requires Valid()
      modifies repr
      ensures Valid() && fresh(repr - old(repr)) && old(repr) <= repr
      ensures Spelled() == Payload.InjectJob(url, old(Spelled()))
      ensures injected <==> Spelled() != old(Spelled())
    {
      if !kind.Mapping? { return false; }
      var steps, at := MappingValue("steps");
      if steps == null { return false; }
      injected := InjectStepsAt(url, at, steps);
    }

    method InjectJobAt(url: string, i: nat, ghost want: Tree) returns (injected: bool)
      requires Valid() && i < |content| && want == Payload.InjectJob(url, Spelled().content[i])
      modifies repr
      ensures Valid() && fresh(repr - old(repr)) && old(repr) <= repr && |content| == |old(content)|
      ensures Spelled() == old(Spelled()).(content := old(Spelled()).content[i := want])
      ensures injected <==> want != old(Spelled()).content[i]
    {
      ghost var next := Spelled().content[i := want];
      injected := content[i].InjectJob(url);
      Absorb(i);
      assert Spelled().content == next;
    }

    /** The job loop: the values of a mapping, two children at a time. */
    method InjectEachJob(url: string, ghost want: seq<Tree>) returns (injected: bool)
      requires Valid() && JobsWanted(url, Spelled().content, want, 1)
      requires want != [] ==> want[0] == Spelled().content[0]
      modifies repr
      ensures Valid() && fresh(repr - old(repr)) && old(repr) <= repr
      ensures Spelled() == old(Spelled()).(content := want)
      ensures injected <==> want != old(Spelled()).content
    {
      injected := false;
      ghost var t := Spelled();
      var i := 0;
      while i + 1 < |content|
        invariant Valid() && fresh(repr - old(repr)) && old(repr) <= repr && |content| == |t.content|
        invariant Spelled() == t.(content := Spelled().content) && JobsWanted(url, t.content, want, i + 1)
        invariant Halfway(t.content, want, Spelled().content, i + 1)
        invariant injected <==> Spelled().content != t.content
        decreases |content| - i
      {
        HalfwayStep(t.content, want, Spelled().content, i + 1, i + 3);
        var c := InjectJobAt(url, i + 1, want[i + 1]);
        injected := injected || c;
        i := i + 2;
      }
      assert Spelled().content == want;
    }

    /** injectCheckoutServerURL on the value of `jobs`. */
    method InjectJobs(url: string) returns (injected: bool)
      requires Valid()
      modifies repr
      ensures Valid() && fresh(repr - old(repr)) && old(repr) <= repr
      ensures Spelled() == Payload.InjectJobs(url, old(Spelled()))
      ensures injected <==> Spelled() != old(Spelled())
    {
      if !kind.Mapping? { return false; }
      InjectJobsWants(url, Spelled(), 1);
      injected := InjectEachJob(url, Payload.InjectJobs(url, Spelled()).content);
    }

    method InjectJobsAt(url: string, ghost at: nat, jobs: Node) returns (injected: bool)
      requires Valid() && at < |content| && jobs == content[at]
      modifies repr
      ensures Valid() && fresh(repr - old(repr)) && old(repr) <= repr
      ensures Spelled() == old(Spelled()).(content :=
              old(Spelled()).content[at := Payload.InjectJobs(url, old(Spelled()).content[at])])
      ensures injected <==> Spelled() != old(Spelled())
    {
      ghost var t := Spelled();
      ghost var want := Payload.InjectJobs(url, t.content[at]);
      injected := jobs.InjectJobs(url);
      Absorb(at);
      assert Spelled().content == t.content[at := want];
      SameUpdate(t, at, want);
    }

    /** injectCheckoutServerURL on the root mapping. */
    method Inject(url: string) returns (injected: bool)
      requires Valid()
      modifies repr
      ensures Valid() && fresh(repr - old(repr)) && old(repr) <= repr
      ensures Spelled() == Payload.Inject(url, old(Spelled()))
      ensures injected <==> Spelled() != old(Spelled())
    {
      var jobs, at := MappingValue("jobs");
      if jobs == null { return false; }
      injected := InjectJobsAt(url, at, jobs);
    }
  }
}
