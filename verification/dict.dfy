/** Python dictionaries with string keys and values, as insertion-ordered lists of
    entries. Assigning to an existing key changes its value in place; assigning to a
    new key appends it. */
module Dict {
  import opened Outcomes

  type Dict = seq<(string, string)>

  function Keys(d: Dict): set<string>
  {
    if |d| == 0 then {} else {d[0].0} + Keys(d[1..])
  }

  /** Python dictionaries never hold a key twice. */
  predicate UniqueKeys(d: Dict)
  {
    forall i, j :: 0 <= i < j < |d| ==> d[i].0 != d[j].0
  }

  /** `d.get(k)`. */
  function Get(d: Dict, k: string): (r: Option<string>)
    ensures r.Some? <==> k in Keys(d)
  {
    if |d| == 0 then None
    else if d[0].0 == k then Some(d[0].1)
    else Get(d[1..], k)
  }

  /** The position of key `k` in the insertion order. */
  function IndexOf(d: Dict, k: string): (i: nat)
    requires k in Keys(d)
    ensures i < |d| && d[i].0 == k
  {
    if d[0].0 == k then 0 else 1 + IndexOf(d[1..], k)
  }

  /** `d[k] = v`. */
  function Put(d: Dict, k: string, v: string): (r: Dict)
    ensures Keys(r) == Keys(d) + {k}
    ensures Get(r, k) == Some(v)
    ensures forall j :: j != k ==> Get(r, j) == Get(d, j)
    ensures k in Keys(d) ==> |r| == |d| && k in Keys(r) && IndexOf(r, k) == IndexOf(d, k)
    // An existing key keeps its place and only its value changes.
    ensures k in Keys(d) ==> r == d[IndexOf(d, k) := (k, v)]
    ensures k !in Keys(d) ==> r == d + [(k, v)]
    ensures UniqueKeys(d) ==> UniqueKeys(r)
  {
    if |d| == 0 then [(k, v)]
    else if d[0].0 == k then
      assert Keys([(k, v)] + d[1..]) == {k} + Keys(d[1..]) by {
        assert ([(k, v)] + d[1..])[1..] == d[1..];
      }
      [(k, v)] + d[1..]
    else
      var rest := Put(d[1..], k, v);
      assert ([d[0]] + rest)[1..] == rest;
      assert UniqueKeys(d) ==> UniqueKeys([d[0]] + rest) by {
        if UniqueKeys(d) {
          KeysMembers(d[1..]);
          KeysMembers(rest);
          forall j | 0 <= j < |rest| ensures rest[j].0 != d[0].0 {
            assert rest[j].0 in Keys(rest);
            if rest[j].0 != k {
              assert rest[j].0 in Keys(d[1..]);
              var m := IndexOf(d[1..], rest[j].0);
              assert d[m + 1].0 == rest[j].0;
            }
          }
        }
      }
      [d[0]] + rest
  }

  /** The keys are exactly the first components of the entries. */
  lemma {:induction false} KeysMembers(d: Dict)
    ensures forall i :: 0 <= i < |d| ==> d[i].0 in Keys(d)
    ensures forall k :: k in Keys(d) ==> exists i :: 0 <= i < |d| && d[i].0 == k
  {
    if |d| > 0 {
      KeysMembers(d[1..]);
      forall i | 0 < i < |d| ensures d[i].0 in Keys(d) {
        assert d[1..][i - 1] == d[i];
      }
      forall k | k in Keys(d) ensures exists i :: 0 <= i < |d| && d[i].0 == k {
        if k != d[0].0 {
          var i :| 0 <= i < |d[1..]| && d[1..][i].0 == k;
          assert d[i + 1].0 == k;
        }
      }
    }
  }

  /** Appending one entry: how keys, lookups and positions of the longer dictionary relate
      to the shorter one. */
  lemma {:induction false} Snoc(p: Dict, e: (string, string))
    ensures Keys(p + [e]) == Keys(p) + {e.0}
    ensures forall k :: Get(p + [e], k) == (if k in Keys(p) then Get(p, k) else if k == e.0 then Some(e.1) else None)
    ensures forall k :: k in Keys(p) ==> IndexOf(p + [e], k) == IndexOf(p, k)
    ensures e.0 !in Keys(p) ==> IndexOf(p + [e], e.0) == |p|
  {
    if |p| > 0 {
      Snoc(p[1..], e);
      assert (p + [e])[1..] == p[1..] + [e];
    }
  }

  /** With unique keys the last entry's key is not among the earlier ones. */
  lemma UniqueSnoc(p: Dict, e: (string, string))
    requires UniqueKeys(p + [e])
    ensures UniqueKeys(p)
    ensures e.0 !in Keys(p)
  {
    KeysMembers(p);
    assert forall i :: 0 <= i < |p| ==> (p + [e])[i] == p[i];
    assert forall i :: 0 <= i < |p| ==> (p + [e])[i].0 != (p + [e])[|p|].0;
  }
}
