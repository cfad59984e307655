/**
  A webhook as the service returns it: its name, the raw names of the
  events it subscribes to, whether it is active and its configuration.
  The fields are never reassigned; `getName`, `isActive` and `getConfig`
  are the datatype's destructors (a Dafny map is an immutable value, so
  `config` is already the read-only view `getConfig` hands out).

  The API route and the execution root are supplied by the variant
  (repository hook, organization hook); the route is a field here and the
  root is left out.
*/
module Hooks {
  import opened Wrappers
  import opened Requests

  /**
    Event types a hook may subscribe to: a representative part of the
    service's event vocabulary, and ALL, the member the wildcard stands for.
  */
  datatype Event =
    | ALL
    | COMMIT_COMMENT
    | CREATE
    | DELETE
    | DEPLOYMENT
    | DEPLOYMENT_STATUS
    | FORK
    | ISSUE_COMMENT
    | ISSUES
    | PING
    | PULL_REQUEST
    | PUSH
    | RELEASE
    | STATUS
    | WATCH

  /** The name of each event type, as its enumeration constant is spelled. */
  function Name(e: Event): string
  {
    match e
    case ALL => "ALL"
    case COMMIT_COMMENT => "COMMIT_COMMENT"
    case CREATE => "CREATE"
    case DELETE => "DELETE"
    case DEPLOYMENT => "DEPLOYMENT"
    case DEPLOYMENT_STATUS => "DEPLOYMENT_STATUS"
    case FORK => "FORK"
    case ISSUE_COMMENT => "ISSUE_COMMENT"
    case ISSUES => "ISSUES"
    case PING => "PING"
    case PULL_REQUEST => "PULL_REQUEST"
    case PUSH => "PUSH"
    case RELEASE => "RELEASE"
    case STATUS => "STATUS"
    case WATCH => "WATCH"
  }

  /** `Enum.valueOf`: the event type with a given name; a partial map. */
  const Vocabulary: map<string, Event> := map[
    "ALL" := ALL,
    "COMMIT_COMMENT" := COMMIT_COMMENT,
    "CREATE" := CREATE,
    "DELETE" := DELETE,
    "DEPLOYMENT" := DEPLOYMENT,
    "DEPLOYMENT_STATUS" := DEPLOYMENT_STATUS,
    "FORK" := FORK,
    "ISSUE_COMMENT" := ISSUE_COMMENT,
    "ISSUES" := ISSUES,
    "PING" := PING,
    "PULL_REQUEST" := PULL_REQUEST,
    "PUSH" := PUSH,
    "RELEASE" := RELEASE,
    "STATUS" := STATUS,
    "WATCH" := WATCH]

  /** Every event type's name is in the vocabulary and names that type. */
  lemma VocabularyHasNames(e: Event)
    ensures Name(e) in Vocabulary && Vocabulary[Name(e)] == e
  {
  }

  /** Every name in the vocabulary is the name of the type it maps to. */
  lemma VocabularyOnlyNames(name: string)
    requires name in Vocabulary
    ensures Name(Vocabulary[name]) == name
  {
  }

  /** The raw name that stands for every event. */
  const Wildcard: string := "*"

  datatype Hook = Hook(
    name: string,
    events: seq<string>,
    active: bool,
    config: map<string, string>,
    /** `getApiRoute()`, supplied by the variant. */
    apiRoute: string)

  datatype HookError =
    /** No event type has the (upper-cased) name. */
    | UnknownEvent(name: string)

  /** English upper case of one character, on the ASCII letters. */
  function UpperChar(c: char): char
  {
    if 'a' <= c <= 'z' then (c as int - 'a' as int + 'A' as int) as char else c
  }

  /** `toUpperCase(Locale.ENGLISH)` on ASCII text. */
  function ToUpper(s: string): (r: string)
    ensures |r| == |s|
  {
    seq(|s|, i requires 0 <= i < |s| => UpperChar(s[i]))
  }

  /** The event one raw name stands for: ALL for the wildcard, otherwise the type named by its upper case. */
  function EventOf(raw: string): Option<Event>
  {
    if raw == Wildcard then Some(ALL)
    else if ToUpper(raw) in Vocabulary then Some(Vocabulary[ToUpper(raw)])
    else None
  }

  /**
    The event set of a raw name list, folded left to right: each name adds
    its event; the first name that stands for none fails the whole list.
  */
  function Normalize(raws: seq<string>): Result<set<Event>, HookError>
    decreases |raws|
  {
    if raws == [] then Ok({})
    else
      match Normalize(raws[..|raws| - 1])
      case Err(err) => Err(err)
      case Ok(s) =>
        var raw := raws[|raws| - 1];
        match EventOf(raw)
        case Some(e) => Ok(s + {e})
        case None => Err(UnknownEvent(ToUpper(raw)))
  }

  /** A failure in a prefix is the failure of the whole list. */
  lemma {:induction false} NormalizeFailureSticks(raws: seq<string>, n: nat)
    requires n <= |raws| && Normalize(raws[..n]).Err?
    ensures Normalize(raws) == Normalize(raws[..n])
    decreases |raws| - n
  {
    if n < |raws| {
      var p := raws[..n + 1];
      assert p[..|p| - 1] == raws[..n];
      NormalizeFailureSticks(raws, n + 1);
    } else {
      assert raws[..n] == raws;
    }
  }

  /**
    The list normalizes exactly when every raw name stands for an event,
    and then the result holds exactly the events the names stand for:
    each member comes from some raw name, and each raw name is represented.
  */
  lemma {:induction false} NormalizeMeaning(raws: seq<string>)
    ensures Normalize(raws).Ok? <==> forall raw :: raw in raws ==> EventOf(raw).Some?
    ensures Normalize(raws).Ok? ==> forall e ::
      e in Normalize(raws).value <==> exists raw :: raw in raws && EventOf(raw) == Some(e)
    decreases |raws|
  {
    if raws != [] {
      var init := raws[..|raws| - 1];
      NormalizeMeaning(init);
      assert raws == init + [raws[|raws| - 1]];
    }
  }

  /**
    A failure names the upper case of the first raw name that stands for
    no event; every earlier name stands for one.
  */
  lemma {:induction false} NormalizeFailure(raws: seq<string>)
    requires Normalize(raws).Err?
    ensures exists i :: (0 <= i < |raws| && EventOf(raws[i]).None?
      && (forall j :: 0 <= j < i ==> EventOf(raws[j]).Some?)
      && Normalize(raws).error == UnknownEvent(ToUpper(raws[i])))
    decreases |raws|
  {
    var init := raws[..|raws| - 1];
    assert forall i :: 0 <= i < |init| ==> init[i] == raws[i];
    if Normalize(init).Err? {
      NormalizeFailure(init);
      var i :| 0 <= i < |init| && EventOf(init[i]).None?
        && (forall j :: 0 <= j < i ==> EventOf(init[j]).Some?)
        && Normalize(init).error == UnknownEvent(ToUpper(init[i]));
      assert EventOf(raws[i]).None?;
    } else {
      NormalizeMeaning(init);
      var i := |raws| - 1;
      forall j | 0 <= j < i ensures EventOf(raws[j]).Some? {
        assert raws[j] in init;
      }
    }
  }

  /**
    The result is a set: whether the names succeed, and the resulting set,
    do not depend on the order or repetition of the names. Which unknown
    name a failure reports does depend on order (see NormalizeFailure).
  */
  lemma NormalizeOrderFree(a: seq<string>, b: seq<string>)
    requires forall raw :: raw in a <==> raw in b
    ensures Normalize(a).Ok? <==> Normalize(b).Ok?
    ensures Normalize(a).Ok? ==> Normalize(a).value == Normalize(b).value
  {
    NormalizeMeaning(a);
    NormalizeMeaning(b);
  }

  /** The wildcard puts ALL into the result. */
  lemma WildcardMeansAll(raws: seq<string>)
    requires Wildcard in raws && Normalize(raws).Ok?
    ensures ALL in Normalize(raws).value
  {
    NormalizeMeaning(raws);
    assert EventOf(Wildcard) == Some(ALL);
  }

  /** `getEvents()`: folds the raw event names into a set of event types, failing on an unknown name. */
  method GetEvents(h: Hook) returns (r: Result<set<Event>, HookError>)
    ensures r == Normalize(h.events)
  {
    var s: set<Event> := {};
    var i := 0;
    while i < |h.events|
      invariant 0 <= i <= |h.events|
      invariant Normalize(h.events[..i]) == Ok(s)
    {
      var e := h.events[i];
      assert h.events[..i + 1][..i] == h.events[..i];
      if e == Wildcard {
        s := s + {ALL};
      } else {
        var name := ToUpper(e);
        if name !in Vocabulary {
          r := Err(UnknownEvent(name));
          NormalizeFailureSticks(h.events, i + 1);
          return;
        }
        s := s + {Vocabulary[name]};
      }
      i := i + 1;
    }
    assert h.events[..i] == h.events;
    r := Ok(s);
  }

  /** `ping()`: a POST to the hook's pings path, with no parameters. */
  method Ping(h: Hook) returns (r: Request)
    ensures r == Request("POST", h.apiRoute + "/pings", map[])
  {
    var q := new Requester();
    q.Method("POST");
    r := q.To(h.apiRoute + "/pings");
  }

  /** `delete()`: a DELETE of the hook's own route, with no parameters. */
  method Delete(h: Hook) returns (r: Request)
    ensures r == Request("DELETE", h.apiRoute, map[])
  {
    var q := new Requester();
    q.Method("DELETE");
    r := q.To(h.apiRoute);
  }

  /** Raw events ["push", "*"] normalize to {PUSH, ALL}; an unknown name fails with its upper case. */
  lemma NormalizeExamples()
    ensures Normalize(["push", Wildcard]) == Ok({PUSH, ALL})
    ensures Normalize(["push", "bogus"]) == Err(UnknownEvent("BOGUS"))
    ensures Normalize(["all"]) == Ok({ALL})
    ensures Normalize([]) == Ok({})
  {
    assert ToUpper("push") == "PUSH";
    assert ToUpper("bogus") == "BOGUS";
    assert ToUpper("all") == "ALL";
    assert "push" != Wildcard && "bogus" != Wildcard && "all" != Wildcard;
    assert "PUSH" in Vocabulary && Vocabulary["PUSH"] == PUSH;
    assert "ALL" in Vocabulary && Vocabulary["ALL"] == ALL;
    assert "BOGUS" !in Vocabulary;
    assert EventOf("push") == Some(PUSH) && EventOf("all") == Some(ALL) && EventOf("bogus") == None;
    var push: seq<string> := ["push"];
    assert push[..|push| - 1] == [] && push[|push| - 1] == "push";
    assert Normalize(push) == Ok({} + {PUSH});
    var pushAll: seq<string> := ["push", Wildcard];
    assert pushAll[..|pushAll| - 1] == push && pushAll[|pushAll| - 1] == Wildcard;
    assert EventOf(Wildcard) == Some(ALL);
    assert {} + {PUSH} == {PUSH} && {PUSH} + {ALL} == {PUSH, ALL} && {} + {ALL} == {ALL};
    assert Normalize(pushAll) == Ok({PUSH} + {ALL});
    var pushBogus: seq<string> := ["push", "bogus"];
    assert pushBogus[..|pushBogus| - 1] == push && pushBogus[|pushBogus| - 1] == "bogus";
    var all: seq<string> := ["all"];
    assert all[..|all| - 1] == [] && all[|all| - 1] == "all";
    assert Normalize(all) == Ok({} + {ALL});
  }
}
