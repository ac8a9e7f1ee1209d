/**
 * The builder's test steps (the `TestStep`/`BuilderStep` records): a kind, an
 * optional description and a parameter object whose values are numbers,
 * strings or booleans. A parameter object is kept as a list of entries in
 * property-creation order, which is the order `Object.entries` reports.
 */
module Steps {
  import opened Wrappers

  /** A JavaScript number restricted to the values the model produces: integers and NaN. */
  datatype Number = Int(value: int) | NaN

  datatype Value = Num(n: Number) | Str(s: string) | Bool(b: bool)

  type Params = seq<(string, Value)>

  /** `id` stands for the generated identifier; only its distinctness matters. */
  datatype Step = Step(id: nat, kind: string, description: string, params: Params)

  function Keys(ps: Params): (ks: seq<string>)
    ensures |ks| == |ps| && forall i :: 0 <= i < |ps| ==> ks[i] == ps[i].0
  {
    seq(|ps|, i requires 0 <= i < |ps| => ps[i].0)
  }

  predicate DistinctKeys(ps: Params)
  {
    forall i, j :: 0 <= i < j < |ps| ==> ps[i].0 != ps[j].0
  }

  /** Property read `ps[key]`: the first entry with that key. */
  function Lookup(ps: Params, key: string): (r: Option<Value>)
    ensures r.Some? <==> key in Keys(ps)
    ensures r.Some? ==> (key, r.value) in ps
  {
    if |ps| == 0 then None
    else if ps[0].0 == key then Some(ps[0].1)
    else
      assert Keys(ps) == [ps[0].0] + Keys(ps[1..]);
      Lookup(ps[1..], key)
  }

  /**
   * Property write `{ ...ps, [key]: v }`: an existing key keeps its place and
   * takes the new value, a new key is added at the end.
   */
  function Assign(ps: Params, key: string, v: Value): Params
  {
    if |ps| == 0 then [(key, v)]
    else if ps[0].0 == key then [(key, v)] + ps[1..]
    else [ps[0]] + Assign(ps[1..], key, v)
  }

  /** The write keeps the keys and their order, and a new key goes at the end. */
  lemma {:induction false} AssignKeys(ps: Params, key: string, v: Value)
    ensures Keys(Assign(ps, key, v)) == if key in Keys(ps) then Keys(ps) else Keys(ps) + [key]
  {
    if |ps| > 0 {
      assert [ps[0]] + ps[1..] == ps;
      KeysCons(ps[0], ps[1..]);
      if ps[0].0 == key {
        KeysCons((key, v), ps[1..]);
      } else {
        var rest := Assign(ps[1..], key, v);
        AssignKeys(ps[1..], key, v);
        KeysCons(ps[0], rest);
        assert key in Keys(ps) <==> key in Keys(ps[1..]);
        assert [ps[0].0] + (Keys(ps[1..]) + [key]) == ([ps[0].0] + Keys(ps[1..])) + [key];
      }
    }
  }

  lemma KeysCons(p: (string, Value), rest: Params)
    ensures Keys([p] + rest) == [p.0] + Keys(rest)
  {
  }

  /** After the write, `key` reads `v` and every other key reads what it read before. */
  lemma {:induction false} AssignLookup(ps: Params, key: string, v: Value, k: string)
    ensures Lookup(Assign(ps, key, v), k) == if k == key then Some(v) else Lookup(ps, k)
  {
    if |ps| > 0 && ps[0].0 != key {
      AssignLookup(ps[1..], key, v, k);
    }
  }

  /** Writing a key the object does not have appends it, with its value, after every existing entry. */
  lemma {:induction false} AssignNewKey(ps: Params, key: string, v: Value)
    requires key !in Keys(ps)
    ensures Assign(ps, key, v) == ps + [(key, v)]
  {
    if |ps| > 0 {
      assert [ps[0]] + ps[1..] == ps;
      KeysCons(ps[0], ps[1..]);
      assert ps[0].0 != key && key !in Keys(ps[1..]);
      AssignNewKey(ps[1..], key, v);
      assert [ps[0]] + (ps[1..] + [(key, v)]) == ps + [(key, v)];
    }
  }

  lemma AssignKeepsDistinct(ps: Params, key: string, v: Value)
    requires DistinctKeys(ps)
    ensures DistinctKeys(Assign(ps, key, v))
  {
    var r := Assign(ps, key, v);
    AssignKeys(ps, key, v);
    forall i, j | 0 <= i < j < |r| ensures r[i].0 != r[j].0 {
      assert Keys(r)[i] == r[i].0 && Keys(r)[j] == r[j].0;
      if key !in Keys(ps) && j == |ps| {
        assert Keys(ps)[i] == ps[i].0;
      } else {
        assert Keys(ps)[i] == ps[i].0 && Keys(ps)[j] == ps[j].0;
      }
    }
  }
}
