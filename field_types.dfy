/**
 * The schema's field types: every field seen with a value that is not
 * `None` gets the type of its values, or "mixed" once two of its values
 * disagree.
 */
module FieldTypes {
  import opened Values

  /** One `(key, value)` of a record, as the schema walks them. */
  type Observation = (string, Value)

  /** Every type is one of the schema's type names or "mixed". */
  predicate KnownTypes(types: map<string, string>) {
    forall k :: k in types ==> types[k] == "mixed" || types[k] in TypeNames
  }

  /** One step: `None` is skipped, a first value sets the type, a disagreeing one makes it "mixed". */
  function Observe(types: map<string, string>, key: string, value: Value): map<string, string> {
    if value == Null then types
    else
      var detected := DetectType(value);
      if key in types && types[key] != detected then types[key := "mixed"]
      else if key in types then types
      else types[key := detected]
  }

  /** The field types after a sequence of observations. */
  function TypesOf(obs: seq<Observation>): map<string, string> {
    if obs == [] then map[] else Observe(TypesOf(obs[..|obs| - 1]), obs[|obs| - 1].0, obs[|obs| - 1].1)
  }

  /** Every field's type is one of the schema's type names or "mixed". */
  lemma {:induction false} TypesOfKnown(obs: seq<Observation>)
    ensures KnownTypes(TypesOf(obs))
    decreases |obs|
  {
    if obs != [] {
      TypesOfKnown(obs[..|obs| - 1]);
    }
  }

  /** The observations of the first `n` records, each record's fields in order. */
  function Observations(records: seq<Record>, n: nat): seq<Observation>
    requires n <= |records|
  {
    if n == 0 then [] else Observations(records, n - 1) + AsObj(records[n - 1]).fields
  }

  /** Observation `i` gives `key` a value that is not `None`. */
  predicate Seen(obs: seq<Observation>, i: int, key: string) {
    0 <= i < |obs| && obs[i].0 == key && obs[i].1 != Null
  }

  /** One step adds `key` exactly when it observes `key` with a value; it changes no other key. */
  lemma ObserveAt(types: map<string, string>, k: string, v: Value, key: string)
    ensures key in Observe(types, k, v) <==> key in types || (k == key && v != Null)
    ensures key != k && key in types ==> Observe(types, k, v)[key] == types[key]
  {
  }

  /** A field has a type exactly when it was seen with a value other than `None`. */
  lemma {:induction false} TypesOfKeys(obs: seq<Observation>, key: string)
    ensures key in TypesOf(obs) <==> exists i :: Seen(obs, i, key)
  {
    if obs != [] {
      var init := obs[..|obs| - 1];
      var last := |obs| - 1;
      TypesOfKeys(init, key);
      assert TypesOf(obs) == Observe(TypesOf(init), obs[last].0, obs[last].1);
      ObserveAt(TypesOf(init), obs[last].0, obs[last].1, key);
      if Seen(obs, last, key) {
        assert key in TypesOf(obs);
      }
      if exists i :: Seen(init, i, key) {
        var i :| Seen(init, i, key);
        assert Seen(obs, i, key);
      }
      if exists i :: Seen(obs, i, key) {
        var i :| Seen(obs, i, key);
        if i < last {
          assert Seen(init, i, key);
        }
      }
    }
  }

  /** Two seen values of different types. */
  ghost predicate Disagree(obs: seq<Observation>, key: string) {
    exists i, j :: Seen(obs, i, key) && Seen(obs, j, key) && DetectType(obs[i].1) != DetectType(obs[j].1)
  }

  /** Every seen value has type `t`. */
  ghost predicate AllOfType(obs: seq<Observation>, key: string, t: string) {
    forall i :: Seen(obs, i, key) ==> DetectType(obs[i].1) == t
  }

  lemma SeenInInit(obs: seq<Observation>, key: string, i: int)
    requires obs != [] && 0 <= i < |obs| - 1
    ensures Seen(obs, i, key) <==> Seen(obs[..|obs| - 1], i, key)
    ensures obs[i] == obs[..|obs| - 1][i]
  {
  }

  /** A disagreement stays one when more is seen. */
  lemma DisagreeGrows(obs: seq<Observation>, key: string)
    requires obs != [] && Disagree(obs[..|obs| - 1], key)
    ensures Disagree(obs, key)
  {
    var init := obs[..|obs| - 1];
    var i, j :| Seen(init, i, key) && Seen(init, j, key) && DetectType(init[i].1) != DetectType(init[j].1);
    SeenInInit(obs, key, i);
    SeenInInit(obs, key, j);
  }

  /** A step that does not see `key` changes nothing about it. */
  lemma UnseenStep(obs: seq<Observation>, key: string, t: string)
    requires obs != [] && !Seen(obs, |obs| - 1, key)
    ensures Disagree(obs, key) ==> Disagree(obs[..|obs| - 1], key)
    ensures AllOfType(obs, key, t) <==> AllOfType(obs[..|obs| - 1], key, t)
  {
    UnseenDisagree(obs, key);
    UnseenAllOfType(obs, key, t);
  }

  lemma UnseenDisagree(obs: seq<Observation>, key: string)
    requires obs != [] && !Seen(obs, |obs| - 1, key)
    ensures Disagree(obs, key) ==> Disagree(obs[..|obs| - 1], key)
  {
    if Disagree(obs, key) {
      var i, j :| Seen(obs, i, key) && Seen(obs, j, key) && DetectType(obs[i].1) != DetectType(obs[j].1);
      SeenInInit(obs, key, i);
      SeenInInit(obs, key, j);
    }
  }

  lemma UnseenAllOfType(obs: seq<Observation>, key: string, t: string)
    requires obs != [] && !Seen(obs, |obs| - 1, key)
    ensures AllOfType(obs, key, t) <==> AllOfType(obs[..|obs| - 1], key, t)
  {
    var init := obs[..|obs| - 1];
    forall i | Seen(init, i, key) ensures Seen(obs, i, key) && obs[i] == init[i] {
      SeenInInit(obs, key, i);
    }
    forall i | Seen(obs, i, key) ensures Seen(init, i, key) && obs[i] == init[i] {
      SeenInInit(obs, key, i);
    }
  }

  /** A step that sees `key` with type `t` keeps every value of type `t` exactly when all earlier ones were. */
  lemma SeenStep(obs: seq<Observation>, key: string, t: string)
    requires obs != [] && Seen(obs, |obs| - 1, key)
    ensures AllOfType(obs, key, t) <==> AllOfType(obs[..|obs| - 1], key, t) && DetectType(obs[|obs| - 1].1) == t
  {
    var init := obs[..|obs| - 1];
    forall i | Seen(init, i, key) ensures Seen(obs, i, key) && obs[i] == init[i] {
      SeenInInit(obs, key, i);
    }
    forall i | Seen(obs, i, key) && i < |obs| - 1 ensures Seen(init, i, key) && obs[i] == init[i] {
      SeenInInit(obs, key, i);
    }
  }

  /** Values all of one type do not disagree. */
  lemma UniformAgrees(obs: seq<Observation>, key: string, t: string)
    requires AllOfType(obs, key, t)
    ensures !Disagree(obs, key)
  {
  }

  /** A new value whose type differs from that of an earlier one makes a disagreement. */
  lemma NewTypeDisagrees(obs: seq<Observation>, key: string, i: int)
    requires obs != [] && Seen(obs[..|obs| - 1], i, key) && Seen(obs, |obs| - 1, key)
    requires DetectType(obs[..|obs| - 1][i].1) != DetectType(obs[|obs| - 1].1)
    ensures Disagree(obs, key)
  {
    SeenInInit(obs, key, i);
  }

  /**
   * The lattice of field types: a field's type is "mixed" exactly when two
   * of its values have different types; otherwise every value it was seen
   * with has that type.
   */
  lemma {:induction false} TypesOfLattice(obs: seq<Observation>, key: string)
    requires key in TypesOf(obs)
    ensures TypesOf(obs)[key] == "mixed" <==> Disagree(obs, key)
    ensures TypesOf(obs)[key] != "mixed" ==> AllOfType(obs, key, TypesOf(obs)[key])
  {
    var init := obs[..|obs| - 1];
    var last := |obs| - 1;
    var prev := TypesOf(init);
    var cur := TypesOf(obs);
    assert cur == Observe(prev, obs[last].0, obs[last].1);
    ObserveAt(prev, obs[last].0, obs[last].1, key);
    TypesOfKeys(init, key);
    if key in prev {
      TypesOfLattice(init, key);
    }
    if !Seen(obs, last, key) {
      assert cur[key] == prev[key];
      UnseenStep(obs, key, prev[key]);
      if prev[key] == "mixed" {
        DisagreeGrows(obs, key);
      }
    } else {
      var d := DetectType(obs[last].1);
      SeenStep(obs, key, d);
      if key !in prev {
        assert cur[key] == d;
        UniformAgrees(obs, key, d);
      } else if prev[key] == "mixed" {
        assert cur[key] == "mixed";
        DisagreeGrows(obs, key);
      } else if prev[key] != d {
        assert cur[key] == "mixed";
        var i :| Seen(init, i, key);
        NewTypeDisagrees(obs, key, i);
      } else {
        assert cur[key] == d;
        UniformAgrees(obs, key, d);
      }
    }
  }

  /** A field once "mixed" stays "mixed", whatever is seen after. */
  lemma MixedStays(obs: seq<Observation>, more: seq<Observation>, key: string)
    requires key in TypesOf(obs) && TypesOf(obs)[key] == "mixed"
    ensures key in TypesOf(obs + more) && TypesOf(obs + more)[key] == "mixed"
  {
    TypesOfLattice(obs, key);
    var i, j :| Seen(obs, i, key) && Seen(obs, j, key) && DetectType(obs[i].1) != DetectType(obs[j].1);
    assert Seen(obs + more, i, key) && Seen(obs + more, j, key);
    TypesOfKeys(obs + more, key);
    TypesOfLattice(obs + more, key);
  }
}
