/**
  The fluent builder that creates a deployment. Each setter records one
  fixed parameter key; `create()` dispatches the recorded parameters to the
  repository's deployments path.
*/
module Deployments {
  import opened Wrappers
  import opened Requests
  import Repositories

  /** One setter call of the deployment builder. */
  datatype Setting =
    | Ref(branch: string)
    | Task(task: string)
    | AutoMerge(autoMerge: bool)
    | RequiredContexts(requiredContexts: seq<string>)
    | Payload(payload: string)
    | Environment(environment: string)
    | Description(description: string)

  /** The parameter a setter records: its fixed key, and its argument. */
  function WriteOf(s: Setting): Write
  {
    match s
    case Ref(branch) => Write("ref", Text(branch))
    case Task(task) => Write("task", Text(task))
    case AutoMerge(autoMerge) => Write("auto_merge", Flag(autoMerge))
    case RequiredContexts(contexts) => Write("required_contexts", Texts(contexts))
    case Payload(payload) => Write("payload", Text(payload))
    case Environment(environment) => Write("environment", Text(environment))
    case Description(description) => Write("description", Text(description))
  }

  /** The parameters recorded by a sequence of setter calls, in call order. */
  function WritesOf(ss: seq<Setting>): (ws: seq<Write>)
    ensures |ws| == |ss|
    ensures forall i :: 0 <= i < |ss| ==> ws[i] == WriteOf(ss[i])
  {
    seq(|ss|, i requires 0 <= i < |ss| => WriteOf(ss[i]))
  }

  /** The seven setters write seven distinct keys: a key tells which setter wrote it. */
  lemma SetterKeysDistinct(s: Setting, t: Setting)
    requires WriteOf(s).key == WriteOf(t).key
    ensures s.Ref? == t.Ref? && s.Task? == t.Task? && s.AutoMerge? == t.AutoMerge?
    ensures s.RequiredContexts? == t.RequiredContexts? && s.Payload? == t.Payload?
    ensures s.Environment? == t.Environment? && s.Description? == t.Description?
  {
    var k := WriteOf(s).key;
    assert k[0] == WriteOf(t).key[0] && |k| == |WriteOf(t).key|;
    assert k == "environment" ==> k[..3] != "ref"[..3];
  }

  /**
    Setter calls on distinct keys commute: any two orders of the same calls
    record the same parameters.
  */
  lemma SettersOrderFree(m: map<string, Value>, ss: seq<Setting>, tt: seq<Setting>)
    requires DistinctKeys(WritesOf(ss)) && DistinctKeys(WritesOf(tt))
    requires forall s :: s in ss <==> s in tt
    ensures ApplyAll(m, WritesOf(ss)) == ApplyAll(m, WritesOf(tt))
  {
    var a, b := WritesOf(ss), WritesOf(tt);
    forall w ensures w in a <==> w in b {
      if w in a {
        var i :| 0 <= i < |a| && a[i] == w;
        assert ss[i] in tt;
        var j :| 0 <= j < |tt| && tt[j] == ss[i];
        assert b[j] == w;
      }
      if w in b {
        var j :| 0 <= j < |b| && b[j] == w;
        assert tt[j] in ss;
        var i :| 0 <= i < |ss| && ss[i] == tt[j];
        assert a[i] == w;
      }
    }
    DistinctWritesOrderFree(m, a, b);
  }

  class DeploymentBuilder {
    const repo: Repositories.Repository
    const builder: Requester

    /** `GHDeploymentBuilder(repo)`: a builder with no parameters. */
    constructor (repo: Repositories.Repository)
      ensures this.repo == repo && fresh(builder)
      ensures builder.params == map[] && builder.verb == None && builder.target == None
    {
      this.repo := repo;
      builder := new Requester();
    }

    /** `GHDeploymentBuilder(repo, ref)`: a fresh builder followed by `ref(ref)`. */
    constructor WithRef(repo: Repositories.Repository, ref: string)
      ensures this.repo == repo && fresh(builder)
      ensures builder.params == ApplyAll(map[], [WriteOf(Setting.Ref(ref))])
      ensures builder.verb == None && builder.target == None
    {
      this.repo := repo;
      builder := new Requester();
      new;
      var self := Ref(ref);
    }

    /** `ref(branch)`: records "ref"; returns this builder. */
    method Ref(branch: string) returns (self: DeploymentBuilder)
      modifies builder
      ensures self == this
      ensures builder.params == ApplyAll(old(builder.params), [WriteOf(Setting.Ref(branch))])
      ensures builder.verb == old(builder.verb) && builder.target == old(builder.target)
    {
      builder.With("ref", Text(branch));
      self := this;
    }

    /** `task(task)`: records "task"; returns this builder. */
    method Task(task: string) returns (self: DeploymentBuilder)
      modifies builder
      ensures self == this
      ensures builder.params == ApplyAll(old(builder.params), [WriteOf(Setting.Task(task))])
      ensures builder.verb == old(builder.verb) && builder.target == old(builder.target)
    {
      builder.With("task", Text(task));
      self := this;
    }

    /** `autoMerge(autoMerge)`: records the flag under "auto_merge"; returns this builder. */
    method AutoMerge(autoMerge: bool) returns (self: DeploymentBuilder)
      modifies builder
      ensures self == this
      ensures builder.params == ApplyAll(old(builder.params), [WriteOf(Setting.AutoMerge(autoMerge))])
      ensures builder.verb == old(builder.verb) && builder.target == old(builder.target)
    {
      builder.With("auto_merge", Flag(autoMerge));
      self := this;
    }

    /** `requiredContexts(requiredContexts)`: records the list, in order, under "required_contexts"; returns this builder. */
    method RequiredContexts(requiredContexts: seq<string>) returns (self: DeploymentBuilder)
      modifies builder
      ensures self == this
      ensures builder.params == ApplyAll(old(builder.params), [WriteOf(Setting.RequiredContexts(requiredContexts))])
      ensures builder.verb == old(builder.verb) && builder.target == old(builder.target)
    {
      builder.With("required_contexts", Texts(requiredContexts));
      self := this;
    }

    /** `payload(payload)`: records "payload"; returns this builder. */
    method Payload(payload: string) returns (self: DeploymentBuilder)
      modifies builder
      ensures self == this
      ensures builder.params == ApplyAll(old(builder.params), [WriteOf(Setting.Payload(payload))])
      ensures builder.verb == old(builder.verb) && builder.target == old(builder.target)
    {
      builder.With("payload", Text(payload));
      self := this;
    }

    /** `environment(environment)`: records "environment"; returns this builder. */
    method Environment(environment: string) returns (self: DeploymentBuilder)
      modifies builder
      ensures self == this
      ensures builder.params == ApplyAll(old(builder.params), [WriteOf(Setting.Environment(environment))])
      ensures builder.verb == old(builder.verb) && builder.target == old(builder.target)
    {
      builder.With("environment", Text(environment));
      self := this;
    }

    /** `description(description)`: records "description"; returns this builder. */
    method Description(description: string) returns (self: DeploymentBuilder)
      modifies builder
      ensures self == this
      ensures builder.params == ApplyAll(old(builder.params), [WriteOf(Setting.Description(description))])
      ensures builder.verb == old(builder.verb) && builder.target == old(builder.target)
    {
      builder.With("description", Text(description));
      self := this;
    }

    /** `create()`: dispatches exactly the parameters set so far to the repository's deployments path. */
    method Create() returns (r: Request)
      modifies builder
      ensures r == Request(old(builder.EffectiveVerb()), repo.apiTailUrl("deployments"), old(builder.params))
      ensures builder.target == Some(r.path) && builder.params == old(builder.params)
      ensures builder.verb == old(builder.verb)
    {
      r := builder.To(repo.apiTailUrl("deployments"));
    }
  }

  /**
    `ref("main")`, `task("deploy")`, `environment("prod")`, then `create()`:
    a POST carrying exactly those three keys.
  */
  method DeploymentScenario(repo: Repositories.Repository) returns (r: Request)
    ensures r == Request("POST", repo.apiTailUrl("deployments"),
      map["ref" := Text("main"), "task" := Text("deploy"), "environment" := Text("prod")])
  {
    var b := new DeploymentBuilder(repo);
    var self := b.Ref("main");
    self := b.Task("deploy");
    self := b.Environment("prod");
    r := b.Create();
  }
}
