/**
  The request builder every resource operation goes through. The builder's
  own source is not part of this model; it is described here by the
  behaviour its callers rely on:
  - `with(key, value)` records a named parameter; a later write to the same
    key replaces the earlier value (last write wins, no error);
  - `method(verb)` selects the HTTP method;
  - `to(path)` fixes the target path and dispatches. Dispatch is modelled as
    returning a description of the request (method, path, parameters)
    instead of performing network I/O.
*/
module Requests {
  import opened Wrappers

  /** A parameter value: a string, a boolean, or an ordered list of strings. */
  datatype Value = Text(text: string) | Flag(flag: bool) | Texts(texts: seq<string>)

  /** What a dispatch sends: the HTTP method, the target path and the parameters. */
  datatype Request = Request(verb: string, path: string, params: map<string, Value>)

  /**
    The method used when none was selected. Creation calls rely on it: the
    deployment builder creates without selecting a method.
  */
  const DefaultVerb: string := "POST"

  /** One `with(key, value)` call. */
  datatype Write = Write(key: string, value: Value)

  /** The parameters after the writes `ws`, in order, starting from `m`. */
  function ApplyAll(m: map<string, Value>, ws: seq<Write>): map<string, Value>
    decreases |ws|
  {
    if ws == [] then m
    else
      var last := ws[|ws| - 1];
      ApplyAll(m, ws[..|ws| - 1])[last.key := last.value]
  }

  /** The value of the last write to `key` in `ws`, if any. */
  function LastWrite(ws: seq<Write>, key: string): Option<Value>
    decreases |ws|
  {
    if ws == [] then None
    else if ws[|ws| - 1].key == key then Some(ws[|ws| - 1].value)
    else LastWrite(ws[..|ws| - 1], key)
  }

  /** The keys that `ws` writes. */
  function KeysOf(ws: seq<Write>): set<string>
  {
    set i | 0 <= i < |ws| :: ws[i].key
  }

  /**
    Last write wins: after the writes `ws`, a key holds the value of its last
    write, and a key that `ws` never writes is exactly as it was in `m`.
  */
  lemma {:induction false} LastWriteWins(m: map<string, Value>, ws: seq<Write>, key: string)
    ensures LastWrite(ws, key).Some? ==>
      key in ApplyAll(m, ws) && ApplyAll(m, ws)[key] == LastWrite(ws, key).value
    ensures LastWrite(ws, key).None? ==>
      (key in ApplyAll(m, ws) <==> key in m) && (key in m ==> ApplyAll(m, ws)[key] == m[key])
    decreases |ws|
  {
    if ws != [] {
      LastWriteWins(m, ws[..|ws| - 1], key);
    }
  }

  /** A key has a last write exactly when some write names it. */
  lemma {:induction false} LastWriteKeys(ws: seq<Write>, key: string)
    ensures LastWrite(ws, key).Some? <==> key in KeysOf(ws)
    decreases |ws|
  {
    if ws != [] {
      var init := ws[..|ws| - 1];
      LastWriteKeys(init, key);
      assert KeysOf(ws) == KeysOf(init) + {ws[|ws| - 1].key} by {
        forall k | k in KeysOf(ws) ensures k in KeysOf(init) + {ws[|ws| - 1].key} {
          var i :| 0 <= i < |ws| && ws[i].key == k;
          if i < |ws| - 1 { assert init[i] == ws[i]; }
        }
        forall k | k in KeysOf(init) ensures k in KeysOf(ws) {
          var i :| 0 <= i < |init| && init[i].key == k;
          assert ws[i] == init[i];
        }
      }
    }
  }

  /** Only the keys that `ws` names are added: the parameter keys afterwards are those of `m` plus those. */
  lemma ApplyAllKeys(m: map<string, Value>, ws: seq<Write>)
    ensures ApplyAll(m, ws).Keys == m.Keys + KeysOf(ws)
  {
    forall key
      ensures key in ApplyAll(m, ws) <==> key in m || key in KeysOf(ws)
    {
      LastWriteWins(m, ws, key);
      LastWriteKeys(ws, key);
    }
  }

  lemma {:induction false} LastWriteConcat(a: seq<Write>, b: seq<Write>, key: string)
    ensures LastWrite(a + b, key) == if LastWrite(b, key).Some? then LastWrite(b, key) else LastWrite(a, key)
    decreases |b|
  {
    if b == [] {
      assert a + b == a;
    } else {
      assert (a + b)[..|a + b| - 1] == a + b[..|b| - 1];
      LastWriteConcat(a, b[..|b| - 1], key);
    }
  }

  /** Two write sequences with the same last write for every key lead to the same parameters. */
  lemma SameLastWrites(m: map<string, Value>, a: seq<Write>, b: seq<Write>)
    requires forall key :: LastWrite(a, key) == LastWrite(b, key)
    ensures ApplyAll(m, a) == ApplyAll(m, b)
  {
    forall key
      ensures key in ApplyAll(m, a) <==> key in ApplyAll(m, b)
      ensures key in ApplyAll(m, a) ==> ApplyAll(m, a)[key] == ApplyAll(m, b)[key]
    {
      LastWriteWins(m, a, key);
      LastWriteWins(m, b, key);
    }
  }

  /** Writing `a` and then `b` is the same as writing `a + b`. */
  lemma {:induction false} ApplyAllConcat(m: map<string, Value>, a: seq<Write>, b: seq<Write>)
    ensures ApplyAll(ApplyAll(m, a), b) == ApplyAll(m, a + b)
    decreases |b|
  {
    if b == [] {
      assert a + b == a;
    } else {
      assert (a + b)[..|a + b| - 1] == a + b[..|b| - 1];
      ApplyAllConcat(m, a, b[..|b| - 1]);
    }
  }

  /** Writes to disjoint keys commute: their order does not change the parameters. */
  lemma WritesCommute(m: map<string, Value>, a: seq<Write>, b: seq<Write>)
    requires KeysOf(a) !! KeysOf(b)
    ensures ApplyAll(ApplyAll(m, a), b) == ApplyAll(ApplyAll(m, b), a)
  {
    ApplyAllConcat(m, a, b);
    ApplyAllConcat(m, b, a);
    forall key
      ensures LastWrite(a + b, key) == LastWrite(b + a, key)
    {
      LastWriteConcat(a, b, key);
      LastWriteConcat(b, a, key);
      LastWriteKeys(a, key);
      LastWriteKeys(b, key);
    }
    SameLastWrites(m, a + b, b + a);
  }

  /** Writes that cover every key an earlier batch wrote erase that batch entirely. */
  lemma LaterWritesOverride(m: map<string, Value>, a: seq<Write>, b: seq<Write>)
    requires KeysOf(a) <= KeysOf(b)
    ensures ApplyAll(ApplyAll(m, a), b) == ApplyAll(m, b)
  {
    ApplyAllConcat(m, a, b);
    forall key
      ensures LastWrite(a + b, key) == LastWrite(b, key)
    {
      LastWriteConcat(a, b, key);
      LastWriteKeys(a, key);
      LastWriteKeys(b, key);
    }
    SameLastWrites(m, a + b, b);
  }

  /** No two writes of `ws` name the same key. */
  predicate DistinctKeys(ws: seq<Write>)
  {
    forall i, j :: 0 <= i < j < |ws| ==> ws[i].key != ws[j].key
  }

  /** With distinct keys, the last write to a written key is its only write. */
  lemma {:induction false} LastWriteOfDistinct(ws: seq<Write>, w: Write)
    requires DistinctKeys(ws) && w in ws
    ensures LastWrite(ws, w.key) == Some(w.value)
    decreases |ws|
  {
    var init, last := ws[..|ws| - 1], ws[|ws| - 1];
    if last != w {
      assert w in init by {
        var i :| 0 <= i < |ws| && ws[i] == w;
        assert i < |ws| - 1 && init[i] == w;
      }
      var i :| 0 <= i < |init| && init[i] == w;
      assert ws[i] == w && last.key != w.key;
      LastWriteOfDistinct(init, w);
    }
  }

  /**
    Writes to pairwise distinct keys may be made in any order: two such
    sequences with the same writes give the same parameters.
  */
  lemma DistinctWritesOrderFree(m: map<string, Value>, a: seq<Write>, b: seq<Write>)
    requires DistinctKeys(a) && DistinctKeys(b)
    requires forall w :: w in a <==> w in b
    ensures ApplyAll(m, a) == ApplyAll(m, b)
  {
    assert KeysOf(a) == KeysOf(b) by {
      forall key | key in KeysOf(a) ensures key in KeysOf(b) {
        var i :| 0 <= i < |a| && a[i].key == key;
        assert a[i] in b;
      }
      forall key | key in KeysOf(b) ensures key in KeysOf(a) {
        var i :| 0 <= i < |b| && b[i].key == key;
        assert b[i] in a;
      }
    }
    forall key
      ensures LastWrite(a, key) == LastWrite(b, key)
    {
      LastWriteKeys(a, key);
      LastWriteKeys(b, key);
      if key in KeysOf(a) {
        var i :| 0 <= i < |a| && a[i].key == key;
        LastWriteOfDistinct(a, a[i]);
        LastWriteOfDistinct(b, a[i]);
      }
    }
    SameLastWrites(m, a, b);
  }

  /** A request under construction: accumulated parameters, selected method, target path. */
  class Requester {
    var params: map<string, Value>
    var verb: Option<string>
    var target: Option<string>

    /** A fresh requester holds no parameters, no method and no target. */
    constructor ()
      ensures params == map[] && verb == None && target == None
    {
      params := map[];
      verb := None;
      target := None;
    }

    /** The method a dispatch uses: the selected one, or the default. */
    function EffectiveVerb(): (v: string)
      reads this
    {
      if verb.Some? then verb.value else DefaultVerb
    }

    /** `with(key, value)`: records one parameter, replacing any earlier value under `key`. */
    method With(key: string, value: Value)
      modifies this
      ensures params == ApplyAll(old(params), [Write(key, value)])
      ensures verb == old(verb) && target == old(target)
    {
      params := params[key := value];
    }

    /** `method(verb)`: selects the HTTP method. */
    method Method(v: string)
      modifies this
      ensures verb == Some(v)
      ensures params == old(params) && target == old(target)
    {
      verb := Some(v);
    }

    /** `to(path)`: fixes the target and dispatches exactly the parameters recorded so far. */
    method To(path: string) returns (r: Request)
      modifies this
      ensures target == Some(path)
      ensures r == Request(old(EffectiveVerb()), path, old(params))
      ensures params == old(params) && verb == old(verb)
    {
      target := Some(path);
      r := Request(EffectiveVerb(), path, params);
    }
  }
}
