/** The order in which a `std::map<std::string, std::string>` hands out its
    keys (ascending by `std::string::operator<`), and the `Key: Value\r\n`
    header block that both response serialisers emit in that order. */
module KeyOrder {

  /** `std::string`'s `operator<`: lexicographic by character, a proper prefix first. */
  predicate LexLess(a: string, b: string)
    decreases |a|
  {
    if a == [] then b != []
    else if b == [] then false
    else if a[0] != b[0] then a[0] < b[0]
    else LexLess(a[1..], b[1..])
  }

  lemma {:induction false} LexIrreflexive(a: string)
    ensures !LexLess(a, a)
    decreases |a|
  {
    if a != [] {
      LexIrreflexive(a[1..]);
    }
  }

  lemma {:induction false} LexTransitive(a: string, b: string, c: string)
    requires LexLess(a, b) && LexLess(b, c)
    ensures LexLess(a, c)
    decreases |a|
  {
    if a != [] && a[0] == b[0] && b[0] == c[0] {
      LexTransitive(a[1..], b[1..], c[1..]);
    }
  }

  lemma {:induction false} LexTotal(a: string, b: string)
    requires a != b
    ensures LexLess(a, b) || LexLess(b, a)
    decreases |a|
  {
    if a != [] && b != [] && a[0] == b[0] {
      assert a == [a[0]] + a[1..] && b == [b[0]] + b[1..];
      LexTotal(a[1..], b[1..]);
    }
  }

  lemma {:induction false} LexAsymmetric(a: string, b: string)
    requires LexLess(a, b)
    ensures !LexLess(b, a)
  {
    if LexLess(b, a) {
      LexTransitive(a, b, a);
      LexIrreflexive(a);
    }
  }

  /** `k` is the smallest key of `keys`: where a map iterator starts. */
  predicate IsLeast(k: string, keys: set<string>)
  {
    k in keys && forall j :: j in keys && j != k ==> LexLess(k, j)
  }

  lemma {:induction false} LeastExists(keys: set<string>)
    requires keys != {}
    ensures exists k :: IsLeast(k, keys)
    decreases |keys|
  {
    var x :| x in keys;
    if keys != {x} {
      var rest := keys - {x};
      LeastExists(rest);
      var m :| IsLeast(m, rest);
      if LexLess(x, m) {
        forall j | j in keys && j != x
          ensures LexLess(x, j)
        {
          if j != m {
            LexTransitive(x, m, j);
          }
        }
        assert IsLeast(x, keys);
      } else {
        LexTotal(x, m);
        assert IsLeast(m, keys);
      }
    } else {
      assert IsLeast(x, keys);
    }
  }

  lemma LeastUnique(a: string, b: string, keys: set<string>)
    requires IsLeast(a, keys) && IsLeast(b, keys)
    ensures a == b
  {
    if a != b {
      LexAsymmetric(a, b);
    }
  }

  /** The smallest key of a non-empty key set. */
  ghost function Least(keys: set<string>): (k: string)
    requires keys != {}
    ensures IsLeast(k, keys)
  {
    LeastExists(keys);
    var k :| IsLeast(k, keys);
    k
  }

  /** Strictly ascending: each key before every later one. */
  predicate Ascending(s: seq<string>)
  {
    forall i, j :: 0 <= i < j < |s| ==> LexLess(s[i], s[j])
  }

  /** The keys of a map in the order a `std::map` iterator visits them. */
  ghost function SortedKeys(keys: set<string>): (s: seq<string>)
    ensures forall k :: k in s ==> k in keys
    decreases |keys|
  {
    if keys == {} then []
    else
      var k := Least(keys);
      [k] + SortedKeys(keys - {k})
  }

  /** The iteration visits every key exactly once, in ascending order. */
  lemma {:induction false} SortedKeysSpec(keys: set<string>)
    ensures |SortedKeys(keys)| == |keys|
    ensures forall k :: k in keys <==> k in SortedKeys(keys)
    ensures Ascending(SortedKeys(keys))
    decreases |keys|
  {
    if keys != {} {
      var k := Least(keys);
      var rest := SortedKeys(keys - {k});
      SortedKeysSpec(keys - {k});
      var r := [k] + rest;
      assert r == SortedKeys(keys);
      forall i, j | 0 <= i < j < |r| ensures LexLess(r[i], r[j]) {
        if i == 0 {
          assert r[j] == rest[j - 1];
          assert r[j] in keys - {k};
        } else {
          assert r[i] == rest[i - 1] && r[j] == rest[j - 1];
        }
      }
    }
  }

  /** Advancing a map iterator: the least key comes first, then the rest in order. */
  lemma SortedKeysStep(keys: set<string>, k: string)
    requires IsLeast(k, keys)
    ensures SortedKeys(keys) == [k] + SortedKeys(keys - {k})
  {
    LeastUnique(k, Least(keys), keys);
  }

  /** An ascending sequence is determined by its elements: iterating a map
      in key order can only produce `SortedKeys`. */
  lemma {:induction false} AscendingUnique(s: seq<string>, keys: set<string>)
    requires Ascending(s)
    requires forall k :: k in keys <==> k in s
    ensures s == SortedKeys(keys)
    decreases |s|
  {
    if s == [] {
      assert keys == {};
    } else {
      assert IsLeast(s[0], keys) by {
        forall j | j in keys && j != s[0]
          ensures LexLess(s[0], j)
        {
          var i :| 0 <= i < |s| && s[i] == j;
        }
      }
      var k := Least(keys);
      LeastUnique(s[0], k, keys);
      forall x ensures x in keys - {k} <==> x in s[1..] {
        if x in s[1..] {
          var i :| 1 <= i < |s| && s[i] == x;
          LexIrreflexive(k);
          assert LexLess(s[0], s[i]);
        }
        if x in s && x != k {
          var i :| 0 <= i < |s| && s[i] == x;
          assert i != 0;
          assert s[1..][i - 1] == x;
        }
      }
      AscendingUnique(s[1..], keys - {k});
    }
  }

  /** `Key: Value\r\n`, as both serialisers write one header. */
  function HeaderLine(key: string, value: string): string
  {
    key + ": " + value + "\r\n"
  }

  /** The header lines for those of `keys` that `m` holds, in that order. */
  function HeaderLines(keys: seq<string>, m: map<string, string>): string
  {
    if keys == [] then []
    else (if keys[0] in m then HeaderLine(keys[0], m[keys[0]]) else []) + HeaderLines(keys[1..], m)
  }

  /** Every header of `m`, one line each, in ascending key order. */
  ghost function HeaderBlock(m: map<string, string>): string
  {
    HeaderLines(SortedKeys(m.Keys), m)
  }

  lemma {:induction false} HeaderLinesAppend(keys: seq<string>, k: string, m: map<string, string>)
    requires k in m
    ensures HeaderLines(keys + [k], m) == HeaderLines(keys, m) + HeaderLine(k, m[k])
    decreases |keys|
  {
    if keys == [] {
      assert [] + [k] == [k];
    } else {
      var ks := keys + [k];
      assert ks[0] == keys[0] && ks[1..] == keys[1..] + [k];
      HeaderLinesAppend(keys[1..], k, m);
      var first := if keys[0] in m then HeaderLine(keys[0], m[keys[0]]) else [];
      assert HeaderLines(ks, m) == first + HeaderLines(keys[1..] + [k], m);
      assert HeaderLines(keys, m) == first + HeaderLines(keys[1..], m);
    }
  }

  /** Each header of `m` appears in the block as its own line. */
  lemma {:induction false} HeaderLineInBlock(keys: seq<string>, m: map<string, string>, i: nat)
    requires i < |keys| && keys[i] in m
    ensures exists pre, post :: HeaderLines(keys, m) == pre + HeaderLine(keys[i], m[keys[i]]) + post
    decreases i
  {
    if i == 0 {
      var post := HeaderLines(keys[1..], m);
      assert HeaderLines(keys, m) == [] + HeaderLine(keys[0], m[keys[0]]) + post;
    } else {
      HeaderLineInBlock(keys[1..], m, i - 1);
      var pre, post :| HeaderLines(keys[1..], m) == pre + HeaderLine(keys[1..][i - 1], m[keys[1..][i - 1]]) + post;
      var first := if keys[0] in m then HeaderLine(keys[0], m[keys[0]]) else [];
      assert HeaderLines(keys, m) == (first + pre) + HeaderLine(keys[i], m[keys[i]]) + post;
    }
  }
}
