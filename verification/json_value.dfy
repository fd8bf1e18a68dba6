/**
  JSON-like request and response bodies, and the recursive key conversion the
  client applies to a request body before sending it.
 */
module JsonValue {
  import opened Wrappers
  import opened OrderedMap

  /**
    A JSON value. `Null` also stands for Python's `None`. An object is an
    ordered dictionary of members.
   */
  datatype Json =
    | Null
    | Bool(b: bool)
    | Num(n: real)
    | Str(s: string)
    | Arr(items: seq<Json>)
    | Obj(members: seq<(string, Json)>)

  /** Python truthiness: `None`, `False`, zero and empty containers are false. */
  predicate Truthy(v: Json) {
    match v
    case Null => false
    case Bool(b) => b
    case Num(n) => n != 0.0
    case Str(s) => |s| > 0
    case Arr(items) => |items| > 0
    case Obj(members) => |members| > 0
  }

  /**
    Conversion of one member value: a mapping is rebuilt with converted keys;
    anything else, a list of mappings included, is copied as it is.
   */
  function ConvertValue(v: Json, convert: string -> string): (r: Json)
    ensures !v.Obj? ==> r == v
    ensures v.Obj? ==> r.Obj? && |r.members| <= |v.members| && UniqueKeys(r.members)
    ensures v.Obj? ==> (|r.members| == 0 <==> |v.members| == 0)
    decreases v, 1
  {
    match v
    case Obj(members) => Obj(ConvertMembers(members, convert))
    case _ => v
  }

  /** The converted keys of all members of `ms`. */
  function ConvertedKeys(ms: seq<(string, Json)>, convert: string -> string): set<string> {
    set i | 0 <= i < |ms| :: convert(ms[i].0)
  }

  /**
    Conversion of a mapping: the members are visited in order and each one is
    assigned into a fresh dictionary under its converted key, so a later
    member whose key converts to an already assigned key overwrites that value.
   */
  function ConvertMembers(ms: seq<(string, Json)>, convert: string -> string): (r: seq<(string, Json)>)
    ensures UniqueKeys(r)
    ensures |r| <= |ms|
    ensures |r| == 0 <==> |ms| == 0
    decreases ms, 0
  {
    if |ms| == 0 then
      []
    else
      var last := ms[|ms| - 1];
      assert last in ms && last.1 < last;
      Put(ConvertMembers(ms[..|ms| - 1], convert), convert(last.0), ConvertValue(last.1, convert))
  }

  /** The keys of a converted mapping are exactly the converted keys of its members. */
  lemma {:induction false} ConvertMembersKeys(ms: seq<(string, Json)>, convert: string -> string)
    ensures Keys(ConvertMembers(ms, convert)) == ConvertedKeys(ms, convert)
  {
    if |ms| > 0 {
      var front := ms[..|ms| - 1];
      var last := ms[|ms| - 1];
      ConvertMembersKeys(front, convert);
      PutKeys(ConvertMembers(front, convert), convert(last.0), ConvertValue(last.1, convert));
      assert ConvertedKeys(ms, convert) == ConvertedKeys(front, convert) + {convert(last.0)} by {
        assert forall i :: 0 <= i < |front| ==> front[i] == ms[i];
      }
    }
  }

  /**
    The member a lookup of `k` must come from: the last member of `ms` whose
    key converts to `k`.
   */
  ghost predicate LastToConvertTo(ms: seq<(string, Json)>, convert: string -> string, k: string, i: int) {
    && 0 <= i < |ms|
    && convert(ms[i].0) == k
    && forall j :: i < j < |ms| ==> convert(ms[j].0) != k
  }

  /** Looking up a key in a converted mapping finds nothing exactly when no member's key converts to it. */
  lemma ConvertMembersGetMissing(ms: seq<(string, Json)>, convert: string -> string, k: string)
    ensures Get(ConvertMembers(ms, convert), k).None? <==> forall i :: 0 <= i < |ms| ==> convert(ms[i].0) != k
  {
    ConvertMembersKeys(ms, convert);
  }

  /**
    Looking up a key in a converted mapping finds the converted value of the
    last member whose key converts to it: a later member wins.
   */
  lemma {:induction false} ConvertMembersGetLast(ms: seq<(string, Json)>, convert: string -> string, k: string, i: int)
    requires LastToConvertTo(ms, convert, k, i)
    ensures Get(ConvertMembers(ms, convert), k) == Some(ConvertValue(ms[i].1, convert))
  {
    var front := ms[..|ms| - 1];
    var last := ms[|ms| - 1];
    var r' := ConvertMembers(front, convert);
    var k', v' := convert(last.0), ConvertValue(last.1, convert);
    assert ConvertMembers(ms, convert) == Put(r', k', v');
    PutGet(r', k', v');
    if i < |ms| - 1 {
      assert front[i] == ms[i];
      assert LastToConvertTo(front, convert, k, i);
      ConvertMembersGetLast(front, convert, k, i);
    }
  }

  /**
    The position of the first member of `ms` whose key converts to `k`, or
    `|ms|` when there is none.
   */
  function FirstToConvertTo(ms: seq<(string, Json)>, convert: string -> string, k: string): (f: nat)
    ensures f <= |ms|
    ensures f < |ms| ==> convert(ms[f].0) == k
    ensures forall j :: 0 <= j < f ==> convert(ms[j].0) != k
  {
    if |ms| == 0 then
      0
    else
      var front := ms[..|ms| - 1];
      var f := FirstToConvertTo(front, convert, k);
      if f < |front| then f
      else if convert(ms[|ms| - 1].0) == k then |front|
      else |ms|
  }

  /** A key produced by some member is first produced at a position inside `ms`. */
  lemma FirstToConvertToProduced(ms: seq<(string, Json)>, convert: string -> string, k: string)
    requires k in ConvertedKeys(ms, convert)
    ensures FirstToConvertTo(ms, convert, k) < |ms|
  {
    var i :| 0 <= i < |ms| && convert(ms[i].0) == k;
  }

  /**
    A converted mapping lists its keys in the order in which they were first
    produced: a key keeps the place of the first member that converted to it,
    even when a later member overwrites its value.
   */
  lemma {:induction false} ConvertMembersOrder(ms: seq<(string, Json)>, convert: string -> string, a: int, b: int)
    requires 0 <= a < b < |ConvertMembers(ms, convert)|
    ensures var r := ConvertMembers(ms, convert);
      FirstToConvertTo(ms, convert, r[a].0) < FirstToConvertTo(ms, convert, r[b].0)
  {
    var front := ms[..|ms| - 1];
    var last := ms[|ms| - 1];
    var r' := ConvertMembers(front, convert);
    var k, v := convert(last.0), ConvertValue(last.1, convert);
    var r := ConvertMembers(ms, convert);
    assert r == Put(r', k, v);
    PutShape(r', k, v);
    ConvertMembersKeys(front, convert);
    assert r[a].0 == r'[a].0;
    assert r'[a].0 in Keys(r');
    FirstToConvertToProduced(front, convert, r'[a].0);
    if b < |r'| {
      ConvertMembersOrder(front, convert, a, b);
      assert r[b].0 == r'[b].0;
      assert r'[b].0 in Keys(r');
      FirstToConvertToProduced(front, convert, r'[b].0);
    } else {
      assert k !in Keys(r') && r[b].0 == k;
      assert FirstToConvertTo(ms, convert, k) == |front|;
    }
  }

  /** The number of keys in a value, counted through nested mappings (not through lists). */
  function KeyCount(v: Json): nat
    decreases v, 1
  {
    match v
    case Obj(members) => MembersKeyCount(members)
    case _ => 0
  }

  /** Each member counts its own key plus the keys nested in its value. */
  function MembersKeyCount(ms: seq<(string, Json)>): nat
    decreases ms, 0
  {
    if |ms| == 0 then
      0
    else
      var last := ms[|ms| - 1];
      assert last in ms && last.1 < last;
      MembersKeyCount(ms[..|ms| - 1]) + 1 + KeyCount(last.1)
  }

  /** Replacing one member changes the count by the difference of the two members' counts. */
  lemma {:induction false} MembersKeyCountUpdate(ms: seq<(string, Json)>, i: nat, m: (string, Json))
    requires i < |ms|
    ensures MembersKeyCount(ms[i := m]) + KeyCount(ms[i].1) == MembersKeyCount(ms) + KeyCount(m.1)
  {
    var front := ms[..|ms| - 1];
    var ms' := ms[i := m];
    if i < |ms| - 1 {
      assert ms'[..|ms'| - 1] == front[i := m];
      MembersKeyCountUpdate(front, i, m);
    } else {
      assert ms'[..|ms'| - 1] == front;
    }
  }

  /** Conversion never increases the number of keys, at the top level or nested. */
  lemma {:induction false} ConvertValueKeyCount(v: Json, convert: string -> string)
    ensures KeyCount(ConvertValue(v, convert)) <= KeyCount(v)
    decreases v, 1
  {
    if v.Obj? {
      ConvertMembersKeyCount(v.members, convert);
    }
  }

  /** The mapping case of `ConvertValueKeyCount`. */
  lemma {:induction false} ConvertMembersKeyCount(ms: seq<(string, Json)>, convert: string -> string)
    ensures MembersKeyCount(ConvertMembers(ms, convert)) <= MembersKeyCount(ms)
    decreases ms, 0
  {
    if |ms| > 0 {
      var front := ms[..|ms| - 1];
      var last := ms[|ms| - 1];
      assert last in ms && last.1 < last;
      var r' := ConvertMembers(front, convert);
      var k, v := convert(last.0), ConvertValue(last.1, convert);
      ConvertMembersKeyCount(front, convert);
      ConvertValueKeyCount(last.1, convert);
      var i := LastIndex(r', k);
      if 0 <= i {
        MembersKeyCountUpdate(r', i, (k, v));
        assert Put(r', k, v) == r'[i := (k, v)];
      } else {
        PutShape(r', k, v);
        var r := r' + [(k, v)];
        assert r[..|r| - 1] == r';
      }
    }
  }

  /** Every key of a mapping, at every nesting level reached through mappings, is a fixed point of `convert`. */
  ghost predicate Settled(v: Json, convert: string -> string)
    decreases v, 1
  {
    v.Obj? ==> SettledMembers(v.members, convert)
  }

  /** A mapping whose keys are distinct fixed points of `convert` and whose values are settled. */
  ghost predicate SettledMembers(ms: seq<(string, Json)>, convert: string -> string)
    decreases ms, 0
  {
    && UniqueKeys(ms)
    && (forall i :: 0 <= i < |ms| ==> convert(ms[i].0) == ms[i].0)
    && (forall i :: 0 <= i < |ms| ==> (assert ms[i] in ms && ms[i].1 < ms[i]; Settled(ms[i].1, convert)))
  }

  ghost predicate Idempotent(convert: string -> string) {
    forall k :: convert(convert(k)) == convert(k)
  }

  /** Converting with an idempotent key conversion yields a settled value. */
  lemma {:induction false} ConvertValueSettles(v: Json, convert: string -> string)
    requires Idempotent(convert)
    ensures Settled(ConvertValue(v, convert), convert)
    decreases v, 1
  {
    if v.Obj? {
      ConvertMembersSettle(v.members, convert);
    }
  }

  /** The mapping case of `ConvertValueSettles`. */
  lemma {:induction false} ConvertMembersSettle(ms: seq<(string, Json)>, convert: string -> string)
    requires Idempotent(convert)
    ensures SettledMembers(ConvertMembers(ms, convert), convert)
    decreases ms, 0
  {
    if |ms| > 0 {
      var front := ms[..|ms| - 1];
      var last := ms[|ms| - 1];
      assert last in ms && last.1 < last;
      var r' := ConvertMembers(front, convert);
      var k, v := convert(last.0), ConvertValue(last.1, convert);
      ConvertMembersSettle(front, convert);
      ConvertValueSettles(last.1, convert);
      var r := Put(r', k, v);
      PutShape(r', k, v);
      forall i | 0 <= i < |r|
        ensures convert(r[i].0) == r[i].0 && Settled(r[i].1, convert)
      {
        if r[i] != (k, v) {
          assert r[i] == r'[i];
          assert r'[i] in r' && r'[i].1 < r'[i];
        }
      }
    }
  }

  /** Converting a settled value changes nothing. */
  lemma {:induction false} SettledValueFixed(v: Json, convert: string -> string)
    requires Settled(v, convert)
    ensures ConvertValue(v, convert) == v
    decreases v, 1
  {
    if v.Obj? {
      SettledMembersFixed(v.members, convert);
    }
  }

  /** The mapping case of `SettledValueFixed`. */
  lemma {:induction false} SettledMembersFixed(ms: seq<(string, Json)>, convert: string -> string)
    requires SettledMembers(ms, convert)
    ensures ConvertMembers(ms, convert) == ms
    decreases ms, 0
  {
    if |ms| > 0 {
      var front := ms[..|ms| - 1];
      var last := ms[|ms| - 1];
      assert last in ms && last.1 < last;
      SettledMembersSplit(ms, convert);
      SettledMembersFixed(front, convert);
      SettledValueFixed(last.1, convert);
      PutShape(front, last.0, last.1);
      calc {
        ConvertMembers(ms, convert);
        Put(ConvertMembers(front, convert), convert(last.0), ConvertValue(last.1, convert));
        Put(front, last.0, last.1);
        front + [last];
        ms;
      }
    }
  }

  /** Splitting a settled mapping before its last member. */
  lemma SettledMembersSplit(ms: seq<(string, Json)>, convert: string -> string)
    requires SettledMembers(ms, convert)
    requires |ms| > 0
    ensures SettledMembers(ms[..|ms| - 1], convert)
    ensures Settled(ms[|ms| - 1].1, convert)
    ensures convert(ms[|ms| - 1].0) == ms[|ms| - 1].0
    ensures ms[|ms| - 1].0 !in Keys(ms[..|ms| - 1])
  {
    var front := ms[..|ms| - 1];
    assert forall i :: 0 <= i < |front| ==> front[i] == ms[i];
  }

  /** Converting twice is converting once, for an idempotent key conversion. */
  lemma ConvertValueIdempotent(v: Json, convert: string -> string)
    requires Idempotent(convert)
    ensures ConvertValue(ConvertValue(v, convert), convert) == ConvertValue(v, convert)
  {
    ConvertValueSettles(v, convert);
    SettledValueFixed(ConvertValue(v, convert), convert);
  }
}
