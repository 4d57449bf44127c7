/** A dictionary of counts, as the `statusCodes` object of a run uses it:
    a missing key reads as 0, a bump adds one under a key, and the sum of
    all counts. */
module Counts {

  /** `(counts[key] || 0)`. */
  function Lookup(m: map<string, nat>, key: string): nat
  {
    if key in m then m[key] else 0
  }

  /** `counts[key] = (counts[key] || 0) + 1`. */
  function Bump(m: map<string, nat>, key: string): map<string, nat>
  {
    m[key := Lookup(m, key) + 1]
  }

  ghost function PickKey(m: map<string, nat>): (k: string)
    requires |m| > 0
    ensures k in m
  {
    assert exists k :: k in m.Keys by {
      assert |m.Keys| > 0;
    }
    var k :| k in m; k
  }

  /** The sum of all values of a dictionary. */
  ghost function SumValues(m: map<string, nat>): nat
    decreases |m|
  {
    if |m| == 0 then 0
    else
      var k := PickKey(m);
      assert |m - {k}| < |m| by {
        assert (m - {k}).Keys == m.Keys - {k};
      }
      m[k] + SumValues(m - {k})
  }

  /** The sum does not depend on which key is taken out first. */
  lemma SumValuesRemove(m: map<string, nat>, k: string)
    requires k in m
    ensures SumValues(m) == m[k] + SumValues(m - {k})
    decreases |m|
  {
    var j := PickKey(m);
    assert (m - {j}).Keys == m.Keys - {j};
    if j != k {
      assert (m - {k}).Keys == m.Keys - {k};
      SumValuesRemove(m - {j}, k);
      SumValuesRemove(m - {k}, j);
      assert m - {j} - {k} == m - {k} - {j};
    }
  }

  /** Setting a key's value replaces whatever that key contributed. */
  lemma SumValuesUpdate(m: map<string, nat>, key: string, v: nat)
    ensures SumValues(m[key := v]) == SumValues(m - {key}) + v
  {
    var b := m[key := v];
    assert key in b && b[key] == v;
    SumValuesRemove(b, key);
    assert b - {key} == m - {key} by {
      assert (b - {key}).Keys == (m - {key}).Keys;
      assert forall k :: k in (b - {key}) ==> (b - {key})[k] == (m - {key})[k];
    }
  }

  /** One more count adds one to the sum. */
  lemma SumValuesBump(m: map<string, nat>, key: string)
    ensures SumValues(Bump(m, key)) == SumValues(m) + 1
  {
    var v := Lookup(m, key) + 1;
    assert SumValues(Bump(m, key)) == SumValues(m - {key}) + v by {
      SumValuesUpdate(m, key, v);
    }
    assert SumValues(m) + 1 == SumValues(m - {key}) + v by {
      if key in m {
        SumValuesRemove(m, key);
      } else {
        assert m - {key} == m by {
          assert (m - {key}).Keys == m.Keys;
        }
      }
    }
  }

}
